/** A thread's virtual address space: free pages kept in an intrusive heap and treap, freed
    pages batched and merged back, chunks of memory committed while they are in use. */
module AddressSpaces {
  import opened Options
  import opened Priority
  import opened Treap
  import opened TreapLinks
  import opened MaxHeap
  import opened StaleHeap
  import opened Blocks
  import opened Allocator
  import opened Bisect
  import opened Chunks
  import opened Merging
  import opened Coalescing
  import opened Hazards
  import opened Sequences
  import H = HeapOps
  import T = TreapOps
  import R = RadixSort
  import opened Searching
  import opened SlabPages
  import opened Pending
  import opened Pictures
  import P = Plain

  class AddressSpace {
    // sizes fixed at compile time: public pages, batch capacity, insertion sort threshold
    const pub: nat
    const buffer: nat
    const threshold: nat
    const slabPages: nat  // the pages of a slab

    // the fields of every node
    const offset: array<nat>
    const size: array<nat>
    const left: array<nat>
    const right: array<nat>
    const heap: array<nat>
    const entries: array<nat>  // the overlapping heap array

    // scratch space and the chunk ledger
    const radixCount: array<nat>
    const radixSum: array<nat>
    const chunks: array<nat>

    var batchList: array<nat>
    var batchSort: array<nat>
    var nextNode: nat
    var treapRoot: nat
    var heapSize: nat
    var freeList: nat
    var batchSize: nat
    var batchPages: nat
    var batchMin: nat
    var batchMax: nat
    var occupied: nat  // in pages

    ghost var tree: Tree  // what the treap links spell out
    ghost var freeIds: seq<nat>  // what the free list links spell out
    ghost var committed: set<nat>  // the committed pages
    ghost var slabs: map<nat, nat>  // the nodes that track slabs, and where their slabs start

    // ---------- the state as a value ----------

    /** The arrays are pairwise different and large enough. */
    ghost predicate Layout()
    {
      && 0 < pub < NIL && buffer > 0 && slabPages > 1
      && offset.Length == size.Length == left.Length == right.Length == pub
      && heap.Length == entries.Length == pub
      && radixCount.Length == radixSum.Length == R.BINS && pub <= 255 * chunks.Length
      && offset != size && offset != left && offset != right && offset != heap && offset != entries
      && offset != radixCount && offset != radixSum && offset != chunks
      && size != left && size != right && size != heap && size != entries && size != radixCount
      && size != radixSum && size != chunks
      && left != right && left != heap && left != entries && left != radixCount && left != radixSum
      && left != chunks
      && right != heap && right != entries && right != radixCount && right != radixSum && right != chunks
      && heap != entries && heap != radixCount && heap != radixSum && heap != chunks
      && entries != radixCount && entries != radixSum && entries != chunks
      && radixCount != radixSum && radixCount != chunks
      && radixSum != chunks
    }

    ghost predicate BatchLayout()
      reads this`batchList, this`batchSort
    {
      && buffer <= batchList.Length && buffer <= batchSort.Length
      && batchList != batchSort && batchList != offset && batchSort != offset && batchList != size
      && batchSort != size && batchList != left && batchSort != left && batchList != right
      && batchSort != right && batchList != heap && batchSort != heap && batchList != entries
      && batchSort != entries && batchList != radixCount && batchSort != radixCount && batchList != radixSum
      && batchSort != radixSum && batchList != chunks && batchSort != chunks
    }

    ghost function Now(): State
      reads this`heapSize, this`treapRoot, this`freeList, this`nextNode, this`tree, this`freeIds
      reads offset, size, left, right, heap, entries
    {
      State(offset[..], size[..], left[..], right[..], heap[..],
            if heapSize <= entries.Length then entries[..heapSize] else [],
            treapRoot, freeList, nextNode, tree, freeIds)
    }

    ghost function All(held: set<nat>): set<nat>
      reads this`slabs
    {
      held + slabs.Keys
    }

    /** The bookkeeping is sound: every node is in the treap, in `held`, free, or tracks a slab. */
    ghost predicate Tracked(held: set<nat>)
      reads this`heapSize, this`treapRoot, this`freeList, this`nextNode, this`tree, this`freeIds, this`slabs
      reads offset, size, left, right, heap, entries
    {
      && Layout() && heapSize <= pub && held !! slabs.Keys && Sound(Now(), All(held), pub)
      && Placed(Now(), slabs)
    }

    /** Every node is accounted for, blocks in the treap or held outside it are disjoint, and slabs
        start elsewhere. */
    ghost predicate Books(held: set<nat>)
      reads this`heapSize, this`treapRoot, this`freeList, this`nextNode, this`tree, this`freeIds, this`slabs
      reads offset, size, left, right, heap, entries
    {
      Tracked(held) && BlocksApart(Now(), held, pub) && Spare(slabs, Free(Now()) + Held(Now(), held), pub)
    }

    ghost function FreePages(): set<nat>
      reads this`heapSize, this`treapRoot, this`freeList, this`nextNode, this`tree, this`freeIds
      reads offset, size, left, right, heap, entries
    {
      Free(Now())
    }

    ghost predicate HeapOrdered()
      reads this`heapSize, this`treapRoot, this`freeList, this`nextNode, this`tree, this`freeIds
      reads offset, size, left, right, heap, entries
    {
      Ordered(Now().h, Now().size)
    }

    lemma AtNode(id: nat)
      requires Layout() && (id < |Now().off| || id < |Now().size| || id < pub)
      ensures id < pub < WORD && offset.Length == size.Length == |Now().off| == |Now().size| == pub
      ensures Now().off[id] == offset[id] && Now().size[id] == size[id]
    {
    }

    lemma ChunksApart()
      requires Layout()
      ensures chunks != offset && chunks != size && chunks != left && chunks != right
      ensures chunks != heap && chunks != entries && pub <= 255 * chunks.Length && pub < NIL && buffer > 0
      ensures slabPages > 1
    {
    }

    /** The batch list. */
    ghost function Batch(): seq<nat>
      reads this`batchSize, this`batchList, batchList
    {
      if batchSize <= batchList.Length then batchList[..batchSize] else []
    }

    lemma BatchApart()
      requires BatchLayout()
      ensures batchList != offset && batchList != size && batchList != left && batchList != right
      ensures batchList != heap && batchList != entries && batchList != chunks && buffer <= batchList.Length
    {
    }

    /** The free blocks in heap order and the batched ones in order of arrival. */
    ghost function Image(): P.Image
      reads this`heapSize, this`treapRoot, this`freeList, this`nextNode, this`tree, this`freeIds
      reads this`batchSize, this`batchList
      reads offset, size, left, right, heap, entries, batchList
    {
      ImageOf(Now(), Batch())
    }

    /** The nodes of batched blocks. */
    ghost function BatchIds(): set<nat>
      reads this`batchSize, this`batchList, batchList
    {
      From(Batch(), 0)
    }

    ghost function BatchedPages(): set<nat>
      reads this`heapSize, this`treapRoot, this`freeList, this`nextNode, this`tree, this`freeIds
      reads this`batchSize, this`batchList
      reads offset, size, left, right, heap, entries, batchList
    {
      Held(Now(), BatchIds())
    }

    /** The pages that are neither free nor batched. */
    ghost function UsedPages(): set<nat>
      reads this`heapSize, this`treapRoot, this`freeList, this`nextNode, this`tree, this`freeIds
      reads this`batchSize, this`batchList
      reads offset, size, left, right, heap, entries, batchList
    {
      Run(0, pub) - (FreePages() + BatchedPages())
    }

    /** The treap and the heap describe the free blocks, the batch list the batched ones; all
        are disjoint and no two free blocks touch; the chunk ledger counts the other pages and
        the batch, and decides what is committed; `occupied` counts the used pages. */
    ghost predicate Accounted()
      reads this`heapSize, this`treapRoot, this`freeList, this`nextNode, this`tree, this`freeIds, this`slabs
      reads this`batchSize, this`batchList, this`batchSort, this`batchPages, this`batchMin, this`batchMax
      reads this`occupied, this`committed, offset, size, left, right, heap, entries, batchList, chunks
    {
      && BatchLayout() && batchSize <= buffer && Tracked(BatchIds())
      && Balanced(Now(), Batch(), batchPages, batchMin, batchMax, occupied, chunks[..], committed, pub)
    }

    /** Besides, every slab lies in used pages of its own. */
    ghost predicate Consistent()
      reads this`heapSize, this`treapRoot, this`freeList, this`nextNode, this`tree, this`freeIds, this`slabs
      reads this`batchSize, this`batchList, this`batchSort, this`batchPages, this`batchMin, this`batchMax
      reads this`occupied, this`committed, offset, size, left, right, heap, entries, batchList, chunks
    {
      Accounted() && Lodged(slabs, slabPages, UsedPages(), pub)
    }

    ghost function SlabPages(): set<nat>
      reads this`slabs
    {
      LodgedPages(slabs, slabPages)
    }

    /** The whole public partition is one free block. */
    ghost predicate AllFree()
      reads this`heapSize, this`treapRoot, this`freeList, this`nextNode, this`tree, this`freeIds, this`slabs
      reads this`batchSize, this`batchList, this`batchSort, this`batchPages, this`batchMin, this`batchMax
      reads this`occupied, this`committed, offset, size, left, right, heap, entries, batchList, chunks
    {
      && Consistent() && batchSize == 0 && slabs == map[] && occupied == 0 && HeapOrdered()
      && FreePages() == Run(0, pub) && UsedPages() == {} && BatchedPages() == {}
      && Image() == P.Image([PageFree(0, pub)], [])
    }

    /** An empty address space. */
    constructor (pub: nat, buffer: nat, threshold: nat, slabPages: nat)
      requires 0 < pub < NIL && buffer > 0 && slabPages > 1
      ensures this.pub == pub && this.buffer == buffer && this.threshold == threshold && this.slabPages == slabPages
      ensures AllFree()
      ensures fresh(offset) && fresh(size) && fresh(left) && fresh(right) && fresh(heap) && fresh(entries)
      ensures fresh(chunks) && fresh(radixCount) && fresh(radixSum) && fresh(batchList) && fresh(batchSort)
    {
      this.pub, this.buffer, this.threshold, this.slabPages := pub, buffer, threshold, slabPages;
      offset, size, left, right := new nat[pub], new nat[pub], new nat[pub], new nat[pub];
      heap, entries, chunks := new nat[pub], new nat[pub], new nat[(pub + 254) / 255](_ => 0);
      radixCount, radixSum := new nat[R.BINS], new nat[R.BINS];
      batchList, batchSort := new nat[buffer], new nat[buffer];
      nextNode, freeList, treapRoot, heapSize := 1, NIL, 0, 1;
      batchSize, batchPages, batchMin, batchMax := 0, 0, NIL, NIL;
      occupied := 0;
      tree, freeIds, committed, slabs := Node(Leaf, 0, Leaf), [], {}, map[];
      new;
      hide Consistent, FreePages, UsedPages, BatchedPages, HeapOrdered, Image;
      Found();
    }

    /** Node 0 takes the whole public partition. */
    method Found()
      requires Layout() && BatchLayout() && tree == Node(Leaf, 0, Leaf) && freeIds == [] && slabs == map[]
      requires nextNode == 1 && freeList == NIL && treapRoot == 0 && heapSize == 1
      requires batchSize == 0 && batchPages == 0 && batchMin == NIL && batchMax == NIL && occupied == 0
      requires committed == {} && forall c :: 0 <= c < chunks.Length ==> chunks[c] == 0
      modifies offset, size, left, right, heap, entries
      ensures Consistent() && FreePages() == Run(0, pub) && UsedPages() == {} && BatchedPages() == {} && HeapOrdered()
      ensures Image() == P.Image([PageFree(0, pub)], [])
    {
      hide Consistent, FreePages, UsedPages, BatchedPages, HeapOrdered, Image;
      offset[0], size[0], left[0], right[0], heap[0], entries[0] := 0, pub, NIL, NIL, 0, 0;
      Founded();
    }

    lemma Founded()
      requires Layout() && BatchLayout() && First(Now(), pub) && slabs == map[] && heapSize <= pub
      requires batchSize == 0 && batchPages == 0 && batchMin == NIL && batchMax == NIL && occupied == 0
      requires committed == {} && forall c :: 0 <= c < chunks.Length ==> chunks[c] == 0
      ensures Consistent() && FreePages() == Run(0, pub) && UsedPages() == {} && BatchedPages() == {} && HeapOrdered()
      ensures Image() == P.Image([PageFree(0, pub)], [])
    {
      hide Sound, Balanced, Ids, Run, Layout, BatchLayout, Now, Free, Held, Ordered;
      BatchApart();
      ChunksApart();
      ghost var s := Now();
      FirstSound(s, pub);
      FirstBalanced(s, pub, chunks[..]);
      NothingBatched(s, []);
      FirstShown(s, pub);
      assert Batch() == [];
    }

    // ---------- the heap and the treap ----------

    method TreapInsert(id: nat)
      requires Layout() && heapSize <= pub
      requires var s := Now();
        && IsTree(s.left, s.right, s.root, s.tree) && Distinct(s.tree) && InRange(Ids(s.tree), s.off)
        && id < pub && id !in Ids(s.tree)
      modifies this`treapRoot, this`tree, left, right
      ensures heapSize == old(heapSize)
      ensures var s, s' := old(Now()), Now();
        && s' == s.(left := s'.left, right := s'.right, root := s'.root, tree := Treap.Insert(s.tree, s.off, id))
        && |s'.left| == |s.left| && |s'.right| == |s.right| && IsTree(s'.left, s'.right, s'.root, s'.tree)
    {
      treapRoot := T.Insert(offset, left, right, treapRoot, id, tree);
      tree := Treap.Insert(tree, offset[..], id);
    }

    method TreapErase(id: nat)
      requires Layout() && heapSize <= pub
      requires var s := Now();
        && IsTree(s.left, s.right, s.root, s.tree) && Distinct(s.tree) && InRange(Ids(s.tree), s.off) && id < pub
      modifies this`treapRoot, this`tree, left, right
      ensures heapSize == old(heapSize)
      ensures var s, s' := old(Now()), Now();
        && id < |s.off|
        && s' == s.(left := s'.left, right := s'.right, root := s'.root, tree := Treap.Erase(s.tree, s.off, s.off[id]))
        && |s'.left| == |s.left| && |s'.right| == |s.right| && IsTree(s'.left, s'.right, s'.root, s'.tree)
    {
      treapRoot := T.Erase(offset, left, right, treapRoot, id, tree);
      tree := Treap.Erase(tree, offset[..], offset[id]);
    }

    method HeapInsert(id: nat)
      requires Layout() && heapSize <= pub
      requires var s := Now();
        && id < pub && |s.h| < pub && id !in s.h && Sized(s.h, s.size) && H.Linked(s.heap, s.h)
      modifies this`heapSize, heap, entries
      ensures heapSize <= pub
      ensures var s, s' := old(Now()), Now();
        && id < |s.size| && s' == s.(heap := s'.heap, h := Push(s.h, s.size, id)) && H.Linked(s'.heap, s'.h)
        && H.KeepsOthers(s.heap, s'.heap, multiset(s.h) + multiset{id})
    {
      hide Push;
      heapSize := H.Insert(size, heap, entries, heapSize, id);
    }

    method HeapErase(id: nat)
      requires Layout() && heapSize <= pub
      requires var s := Now(); id in s.h && Sized(s.h, s.size) && H.Linked(s.heap, s.h)
      modifies this`heapSize, heap, entries
      ensures heapSize <= pub
      ensures var s, s' := old(Now()), Now();
        && id < |s.heap| && s.heap[id] < |s.h| && s.h[s.heap[id]] == id
        && s' == s.(heap := s'.heap, h := Remove(s.h, s.size, s.heap[id])) && H.Linked(s'.heap, s'.h)
        && H.KeepsOthers(s.heap, s'.heap, multiset(s.h))
    {
      hide Remove;
      heapSize := H.Erase(size, heap, entries, heapSize, id);
    }

    method HeapFix(id: nat)
      requires Layout() && heapSize <= pub
      requires var s := Now(); id in s.h && Sized(s.h, s.size) && H.Linked(s.heap, s.h)
      modifies heap, entries
      ensures var s, s' := old(Now()), Now();
        && id < |s.heap| && s.heap[id] < |s.h| && s.h[s.heap[id]] == id
        && s' == s.(heap := s'.heap, h := MaxHeap.Fix(s.h, s.size, s.heap[id])) && H.Linked(s'.heap, s'.h)
        && H.KeepsOthers(s.heap, s'.heap, multiset(s.h))
    {
      hide MaxHeap.Fix;
      H.Fix(size, heap, entries, heapSize, id);
    }

    // ---------- nodes ----------

    method GetNode(ghost held: set<nat>) returns (id: nat)
      requires Tracked(held) && (Now().head == NIL ==> Now().next < pub)
      modifies this`freeList, this`nextNode, this`freeIds
      ensures id < pub && id !in Ids(old(Now()).tree) && id !in held && id !in slabs
      ensures Tracked(held + {id})
      ensures var s, s' := old(Now()), Now();
        s' == s.(head := s'.head, next := s'.next, free := s'.free)
    {
      hide Sound;
      ghost var s := Now();
      if freeList != NIL {
        TakeFree(s, All(held), pub);
        id := freeList;
        freeList := heap[id];
        freeIds := freeIds[1..];
        assert Now() == s.(head := s.heap[s.head], free := s.free[1..]);
      } else {
        TakeNew(s, All(held), pub);
        id := nextNode;
        nextNode := nextNode + 1;
        assert Now() == s.(next := s.next + 1);
      }
      assert All(held + {id}) == All(held) + {id};
    }

    method PutNode(id: nat, ghost held: set<nat>)
      requires Tracked(held) && id in held
      modifies this`freeList, this`freeIds, heap
      ensures Tracked(held - {id})
      ensures var s, s' := old(Now()), Now();
        s' == s.(heap := s'.heap, head := s'.head, free := s'.free)
    {
      hide Sound;
      ghost var s := Now();
      Return(s, All(held), pub, id);
      heap[id] := freeList;
      freeList := id;
      freeIds := [id] + freeIds;
      assert Now() == s.(heap := s.heap[id := s.head], head := id, free := [id] + s.free);
      assert All(held) - {id} == All(held - {id});
    }

    /** The node of a slab that is given up joins the free list. */
    method PutSlab(id: nat, ghost held: set<nat>)
      requires Tracked(held) && id in slabs
      modifies this`freeList, this`freeIds, this`slabs, heap
      ensures Tracked(held) && slabs == old(slabs) - {id}
      ensures var s, s' := old(Now()), Now();
        s' == s.(heap := s'.heap, head := s'.head, free := s'.free)
    {
      hide Sound;
      slabs := slabs - {id};
      assert old(All(held)) == All(held + {id});
      PutNode(id, held + {id});
      assert held + {id} - {id} == held;
    }

    method FillNode(id: nat, o: nat, n: nat, ghost held: set<nat>)
      requires Tracked(held) && id in held
      modifies offset, size, left, right, heap
      ensures Tracked(held)
      ensures var s, s' := old(Now()), Now();
        && id < |s.off| && id < |s.size|
        && s' == s.(off := s.off[id := o], size := s.size[id := n], left := s'.left, right := s'.right, heap := s'.heap)
      ensures old(HeapOrdered()) ==> HeapOrdered()
    {
      ghost var s := Now();
      SetNode(s, All(held), pub, id, o, n);
      HeapReady(s, All(held), pub);
      if Ordered(s.h, s.size) { OrderedElsewhere(s.h, s.size, s.size[id := n]); }
      hide Sound, Ordered, Ids;
      offset[id] := o;
      size[id] := n;
      left[id] := NIL;
      right[id] := NIL;
      heap[id] := NIL;
      assert Now() == s.(off := s.off[id := o], size := s.size[id := n], left := s.left[id := NIL],
                         right := s.right[id := NIL], heap := s.heap[id := NIL]);
    }

    method SetBlock(id: nat, o: nat, n: nat)
      requires Layout() && id < pub
      modifies offset, size
      ensures var s, s' := old(Now()), Now();
        && id < |s.off| && id < |s.size|
        && s' == s.(off := s.off[id := o], size := s.size[id := n])
    {
      offset[id] := o;
      size[id] := n;
      assert offset[..] == old(offset[..])[id := o] && size[..] == old(size[..])[id := n];
    }

    method SetSize(id: nat, n: nat)
      requires Layout() && id < pub
      modifies size
      ensures var s, s' := old(Now()), Now(); id < |s.size| && s' == s.(size := s.size[id := n])
    {
      size[id] := n;
      assert size[..] == old(size[..])[id := n];
    }

    // ---------- changing the free blocks ----------

    /** A free block keeps its first `n` pages. */
    method ShrinkInPlace(id: nat, n: nat, ghost held: set<nat>)
      requires Books(held) && id in Ids(Now().tree) && id < |Now().off| && id < |Now().size|
      requires 0 < n <= Now().size[id]
      modifies size, heap, entries
      ensures Tracked(held)
      ensures var s, s' := old(Now()), Now();
        && id < |s.size| && s' == s.(size := s.size[id := n], heap := s'.heap, h := s'.h)
      ensures RunTaken(old(Now()), Now(), held, pub, old(Now()).off[id] + n, old(Now()).size[id] - n)
      ensures old(HeapOrdered()) ==> HeapOrdered()
      ensures FixedAs(old(Now()), Now(), id, old(Now()).off[id], n)
    {
      hide Sound, Ids, Ordered, Now, RunTaken, BlocksApart, Layout, IsTree, IsTreap, MaxHeap.Fix, Sized, H.Linked;
      hide H.KeepsOthers, FixedAs, Heaped;
      ghost var s := Now();
      SoundHeaped(s, All(held), pub);
      AtNode(id);
      HeapReady(s, All(held), pub);
      Allocator.SetSize(s, All(held), pub, id, n);
      SetSize(id, n);
      ghost var s1 := Now();
      HeapReady(s1, All(held), pub);
      HeapFix(id);
      Fixed(s1, All(held), pub, id, Now());
      if Ordered(s.h, s.size) {
        Loosened(s.heap, s.h, s.size, s.heap[id], n);
        FixOrders(s.h, s1.size, s.heap[id]);
      }
      RearTaken(s, Now(), All(held), held, pub, id, n);
      assert s.off[id := s.off[id]] == s.off;
      FixedShown(s, Now(), id, s.off[id], n);
    }

    /** A held node's block becomes free. */
    method Release(id: nat, ghost held: set<nat>)
      requires Tracked(held) && id in held && id < |Now().off| && Now().off[id] < WORD
      requires forall i :: i in Ids(Now().tree) && i < |Now().off| ==> Now().off[i] != Now().off[id]
      modifies this`treapRoot, this`tree, this`heapSize, left, right, heap, entries
      ensures Tracked(held - {id}) && Ids(Now().tree) == old(Ids(Now().tree)) + {id}
      ensures var s, s' := old(Now()), Now();
        s' == s.(left := s'.left, right := s'.right, root := s'.root, tree := s'.tree, heap := s'.heap, h := s'.h)
      ensures var s := old(Now()); id < |s.size| && Sized(s.h, s.size) && Now().h == Push(s.h, s.size, id)
      ensures old(HeapOrdered()) ==> HeapOrdered()
    {
      hide Sound, Ids, IsTree, IsTreap, Ordered, Push, Treap.Insert, Distinct, H.Linked, H.KeepsOthers, Sized, Now;
      ghost var s := Now();
      HeapReady(s, All(held), pub);
      TreapReady(s, All(held), pub);
      RoomInHeap(s, All(held), pub, id);
      assert forall i :: i in Ids(s.tree) ==> s.off[i] != s.off[id];
      if Ordered(s.h, s.size) { PushOrders(s.h, s.size, id); }
      TreapInsert(id);
      HeapInsert(id);
      Inserted(s, All(held), pub, id, Now());
      assert All(held) - {id} == All(held - {id});
    }

    /** The pages [o, o + n) become a free block of their own. */
    method AddFree(o: nat, n: nat, ghost held: set<nat>)
      requires Books(held) && n > 0 && o + n <= pub && forall i :: i in slabs ==> slabs[i] != o
      requires Run(o, n) !! Free(Now()) && Run(o, n) !! Held(Now(), held)
      modifies this`freeList, this`nextNode, this`freeIds, this`treapRoot, this`tree, this`heapSize
      modifies offset, size, left, right, heap, entries
      ensures Tracked(held) && RunFreed(old(Now()), Now(), held, pub, o, n)
      ensures old(HeapOrdered()) ==> HeapOrdered()
      ensures HeapOf(Now()) == P.Pushed(HeapOf(old(Now())), PageFree(o, n))
    {
      hide Sound, Ids, Run, Free, Held, Ordered, Now, RunFreed, BlocksApart, HeapOf, P.Pushed, Push;
      ghost var s := Now();
      FirstPage(o, n);
      RoomFor(s, held, slabs, pub, o, n, o);
      var child := GetNode(held);
      FillNode(child, o, n, held + {child});
      ghost var s1 := Now();
      Release(child, held + {child});
      AddedShown(s, s1, Now(), All(held), pub, child, o, n);
      assert held + {child} - {child} == held;
      RunAdded(s, Now(), All(held), held, pub, child, o, n);
    }

    /** A free block changes its start and size. */
    method MoveFree(id: nat, o: nat, n: nat, ghost held: set<nat>)
      requires Tracked(held) && id in Ids(Now().tree) && o < WORD
      requires forall i :: i in Ids(Now().tree) && i != id && i < |Now().off| ==> Now().off[i] != o
      modifies this`treapRoot, this`tree, offset, size, left, right, heap, entries
      ensures Tracked(held) && Ids(Now().tree) == old(Ids(Now().tree))
      ensures var s, s' := old(Now()), Now();
        && id < |s.off| && id < |s.size| && s'.off == s.off[id := o] && s'.size == s.size[id := n]
      ensures old(HeapOrdered()) ==> HeapOrdered()
      ensures FixedAs(old(Now()), Now(), id, o, n)
    {
      hide Sound, Ids, IsTree, IsTreap, Ordered, MaxHeap.Fix, Treap.Insert, Treap.Erase;
      hide Distinct, H.Linked, H.KeepsOthers, Now, FixedAs, Heaped;
      ghost var s := Now();
      SoundHeaped(s, All(held), pub);
      HeapReady(s, All(held), pub);
      TreapReady(s, All(held), pub);
      MovedTree(s.tree, s.off, s.off[id := o], id, o);
      if Ordered(s.h, s.size) {
        AtBackIndexOf(s.heap, s.h, id);
        Loosened(s.heap, s.h, s.size, s.heap[id], n);
        FixOrders(s.h, s.size[id := n], s.heap[id]);
      }
      TreapErase(id);
      DistinctErased(s, All(held), pub, id);
      SetBlock(id, o, n);
      TreapInsert(id);
      HeapFix(id);
      Moved(s, All(held), pub, id, o, Now());
      FixedShown(s, Now(), id, o, n);
    }

    /** A free block leaves the heap and the treap; its node is returned. */
    method Unfree(id: nat, ghost held: set<nat>)
      requires Tracked(held) && id in Ids(Now().tree)
      modifies this`freeList, this`freeIds, this`treapRoot, this`tree, this`heapSize, left, right, heap, entries
      ensures Tracked(held) && Ids(Now().tree) == old(Ids(Now().tree)) - {id}
      ensures var s, s' := old(Now()), Now();
        && s'.off == s.off && s'.size == s.size && Sized(s.h, s.size)
        && id < |s.heap| && s.heap[id] < |s.h| && s.h[s.heap[id]] == id
        && s'.h == Remove(s.h, s.size, s.heap[id])
    {
      hide Sound, Ids, IsTree, IsTreap, Ordered, Remove, Treap.Erase;
      hide Distinct, H.Linked, H.KeepsOthers, Now;
      ghost var s := Now();
      HeapReady(s, All(held), pub);
      TreapReady(s, All(held), pub);
      HeapErase(id);
      TreapErase(id);
      Erased(s, All(held), pub, id, Now());
      assert All(held) + {id} == All(held + {id});
      PutNode(id, held + {id});
      assert held + {id} - {id} == held;
    }

    // ---------- taking pages from a free block ----------

    /** A free block keeps all but its first `pages` pages. */
    method KeepRear(id: nat, pages: nat, ghost held: set<nat>)
      requires Books(held) && id in Ids(Now().tree) && id < |Now().off| && id < |Now().size|
      requires 0 < pages < Now().size[id]
      modifies this`treapRoot, this`tree, offset, size, left, right, heap, entries
      ensures Tracked(held) && id < |old(Now()).off|
      ensures RunTaken(old(Now()), Now(), held, pub, old(Now()).off[id], pages)
      ensures old(HeapOrdered()) ==> HeapOrdered()
      ensures CutAs(old(Now()), Now(), id, 0, pages)
    {
      hide Sound, Ids, Ordered, Now, RunTaken, BlocksApart, Layout, CutAs, FixedAs, Heaped;
      ghost var s := Now();
      SoundHeaped(s, All(held), pub);
      FreshFront(s, All(held), held, pub, id, pages);
      AtNode(id);
      MoveFree(id, offset[id] + pages, size[id] - pages, held);
      FrontTaken(s, Now(), All(held), held, pub, id, pages);
      HeapPlace(s, id);
      FrontCut(s, Now(), id, pages);
    }

    method TakeFront(id: nat, pages: nat, ghost held: set<nat>)
      requires Books(held) && id in Ids(Now().tree) && id < |Now().off| && id < |Now().size|
      requires 0 < pages <= Now().size[id]
      modifies this`freeList, this`freeIds, this`treapRoot, this`tree, this`heapSize
      modifies offset, size, left, right, heap, entries
      ensures Tracked(held) && id < |old(Now()).off|
      ensures RunTaken(old(Now()), Now(), held, pub, old(Now()).off[id], pages)
      ensures old(HeapOrdered()) ==> HeapOrdered()
      ensures CutAs(old(Now()), Now(), id, 0, pages)
    {
      hide Sound, Ids, Ordered, Now, Remove, RunTaken, BlocksApart, Layout, CutAs, Heaped;
      ghost var s := Now();
      SoundHeaped(s, All(held), pub);
      AtNode(id);
      if pages < size[id] {
        KeepRear(id, pages, held);
      } else {
        OrderedWithout(s, All(held), pub, id);
        Unfree(id, held);
        AllTaken(s, Now(), All(held), held, pub, id);
        AllCut(s, Now(), id);
      }
    }

    /** The pages [o, o + n) are cut out of a free block, `left` pages from its start. */
    method TakeRun(id: nat, left: nat, n: nat, ghost held: set<nat>)
      requires Books(held) && id in Ids(Now().tree) && id < |Now().off| && id < |Now().size|
      requires n > 0 && left + n <= Now().size[id]
      modifies this`freeList, this`nextNode, this`freeIds, this`treapRoot, this`tree, this`heapSize
      modifies offset, size, this.left, right, heap, entries
      ensures Tracked(held) && id < |old(Now()).off|
      ensures RunTaken(old(Now()), Now(), held, pub, old(Now()).off[id] + left, n)
      ensures old(HeapOrdered()) ==> HeapOrdered()
      ensures CutAs(old(Now()), Now(), id, left, n)
    {
      hide Sound, Ids, Ordered, Now, RunTaken, RunFreed, BlocksApart, Layout, Free, Held, Run, CutAs, FixedAs, Heaped;
      hide HeapOf;
      ghost var s := Now();
      SoundHeaped(s, All(held), pub);
      HeapPlace(s, id);
      AtNode(id);
      if left == 0 {
        TakeFront(id, n, held);
      } else if left + n == size[id] {
        ShrinkInPlace(id, left, held);
        RearCut(s, Now(), id, left, n);
      } else {
        TakeMiddle(id, left, n, held);
      }
    }

    /** What is left behind the run becomes a block of its own. */
    method TakeMiddle(id: nat, left: nat, n: nat, ghost held: set<nat>)
      requires Books(held) && id in Ids(Now().tree) && id < |Now().off| && id < |Now().size|
      requires n > 0 && left > 0 && left + n < Now().size[id]
      modifies this`freeList, this`nextNode, this`freeIds, this`treapRoot, this`tree, this`heapSize
      modifies offset, size, this.left, right, heap, entries
      ensures Tracked(held) && id < |old(Now()).off|
      ensures RunTaken(old(Now()), Now(), held, pub, old(Now()).off[id] + left, n)
      ensures old(HeapOrdered()) ==> HeapOrdered()
      ensures CutAs(old(Now()), Now(), id, left, n)
    {
      hide Sound, Ids, Ordered, Now, RunTaken, RunFreed, BlocksApart, Layout, Free, Held, Run, CutAs, FixedAs, Heaped;
      hide HeapOf, P.Pushed, P.Cut, P.Fixed, P.BlocksOf;
      ghost var s := Now();
      SoundHeaped(s, All(held), pub);
      HeapPlace(s, id);
      AtNode(id);
      var o, rest := offset[id] + left + n, size[id] - n - left;
      ShrinkInPlace(id, left, held);
      ghost var s1 := Now();
      assert o == s.off[id] + left + n && rest == s.size[id] - n - left == s.size[id] - left - n;
      RearReady(s, s1, All(held), held, slabs, pub, id, left, n);
      AddFree(o, rest, held);
      MiddleTaken(s, s1, Now(), held, pub, id, left, n);
      MiddleCut(s, s1, Now(), id, left, n);
    }

    // ---------- merging one run of batched blocks ----------

    /** A block's pages leave the chunk ledger. */
    method Uncount(id: nat, ghost used: set<nat>)
      requires Layout() && id < |Now().off| && id < |Now().size| && Ledger(chunks[..], used)
      requires Now().size[id] > 0 && Now().off[id] + Now().size[id] <= pub
      requires Run(Now().off[id], Now().size[id]) <= used
      modifies chunks
      ensures Now() == old(Now())
      ensures Ledger(chunks[..], used - Run(Now().off[id], Now().size[id]))
    {
      hide Ledger, Run;
      AtNode(id);
      Decrement(chunks, offset[id], size[id], used);
    }

    method TreapPrev(key: nat, ghost held: set<nat>) returns (n: nat)
      requires Tracked(held)
      ensures InRange(Ids(Now().tree), Now().off) && T.IsPrev(Now().tree, Now().off, key, n)
      ensures n != NIL ==> n in Ids(Now().tree) && n < pub
    {
      hide Sound, Ids, IsTree, IsTreap, Distinct;
      TreapReady(Now(), All(held), pub);
      n := T.Prev(offset, left, right, treapRoot, key, tree);
    }

    method TreapNext(key: nat, ghost held: set<nat>) returns (n: nat)
      requires Tracked(held)
      ensures InRange(Ids(Now().tree), Now().off) && T.IsNext(Now().tree, Now().off, key, n)
      ensures n != NIL ==> n in Ids(Now().tree) && n < pub
    {
      hide Sound, Ids, IsTree, IsTreap, Distinct;
      TreapReady(Now(), All(held), pub);
      n := T.Next(offset, left, right, treapRoot, key, tree);
    }

    /** The first block of a run is added to the free block before it, if there is one. */
    method StartRun(id: nat, ghost rest: set<nat>, ghost total: set<nat>) returns (run: nat, insert: bool)
      requires Tracked(rest) && id in rest && Resting(Now(), rest, pub, total, chunks[..], committed)
      modifies this`freeList, this`freeIds, size, heap, chunks
      ensures Tracked(HeldWith(Now(), run, rest - {id})) && Begun(old(Now()), Now(), run, id, insert)
      ensures Running(Now(), run, rest - {id}, pub, total, chunks[..], committed)
      ensures old(HeapOrdered()) ==> InOrder(Now(), run)
      ensures HazardAhead(Now(), run) <==> SandwichHazard(old(Now()), id)
      ensures RunOf(Now(), run) == P.Start(HeapOf(old(Now())), NodeBlock(old(Now()), id))
    {
      hide Sound, Ids, Ordered, Now, Layout, Resting, Running, Run, InOrder, Ledger, T.IsPrev, Free, Stale;
      hide HazardAhead, SandwichHazard, RunOf, P.Start, Heaped;
      ChunksApart();
      ghost var s := Now();
      SoundHeaped(s, All(rest), pub);
      ghost var counted: seq<nat> := chunks[..];
      Uncountable(s, rest, pub, total, id, counted, committed);
      AtNode(id);
      Uncount(id, Run(0, pub) - Free(s));
      var n := TreapPrev(offset[id], rest);
      if n != NIL { AtNode(n); }
      insert := !(n != NIL && offset[n] + size[n] == offset[id]);
      if insert {
        run := id;
        StartedAlone(s, rest, pub, total, id, n, counted, committed, chunks[..]);
        StaysInOrder(s, id);
        StartedApart(s, id);
        StartedAloneShown(s, Now(), id);
        assert rest - {id} + {id} == rest;
      } else {
        run := n;
        JoinBefore(n, id, rest);
        StartedInPrev(s, Now(), rest, pub, total, id, n, counted, committed, chunks[..]);
        StartedBeside(s, Now(), All(rest), All(rest - {id}), pub, rest, total, counted, committed, n, id);
        StartedInPrevShown(s, Now(), rest, pub, total, counted, committed, id, n);
      }
    }

    /** A batched block is added to the free block before it. */
    method JoinBefore(n: nat, id: nat, ghost rest: set<nat>)
      requires Tracked(rest) && n in Ids(Now().tree) && id in rest
      requires n < |Now().size| && id < |Now().size| && id !in Ids(Now().tree)
      modifies this`freeList, this`freeIds, size, heap
      ensures Tracked(rest - {id})
      ensures var s, s' := old(Now()), Now();
        && n < |s.size| && id < |s.size|
        && s'.off == s.off && s'.size == s.size[n := s.size[n] + s.size[id]] && s'.tree == s.tree && s'.h == s.h
      ensures old(HeapOrdered()) ==> InOrder(Now(), n)
    {
      hide Sound, Ids, Ordered, Now, Layout, InOrder, Stale;
      ghost var s := Now();
      AtNode(n);
      AtNode(id);
      Allocator.SetSize(s, All(rest), pub, n, s.size[n] + s.size[id]);
      SetSize(n, size[n] + size[id]);
      ghost var s1 := Now();
      if Ordered(s.h, s.size) {
        StartsStale(s, All(rest), pub, n, s1.size, s.size[id]);
        BeginsInOrder(s1, n);
      }
      PutNode(id, rest);
      InOrderKept(s1, Now(), All(rest), All(rest - {id}), pub, n);
    }

    /** The run absorbs a batched block. */
    method AbsorbBatch(run: nat, j: nat, ghost rest: set<nat>, ghost total: set<nat>)
      requires Tracked(HeldWith(Now(), run, rest)) && j in rest
      requires Running(Now(), run, rest, pub, total, chunks[..], committed)
      requires j < |Now().off| && run < |Now().off| && run < |Now().size|
      requires Now().off[run] + Now().size[run] == Now().off[j]
      modifies this`freeList, this`freeIds, size, heap, chunks
      ensures Tracked(HeldWith(Now(), run, rest - {j})) && Now().tree == old(Now()).tree && Now().h == old(Now()).h
      ensures OnlyRun(old(Now()), Now(), run)
      ensures Adjoins(old(Now()), run, j) && Now().size == Grown(old(Now()), run, j).size
      ensures Running(Now(), run, rest - {j}, pub, total, chunks[..], committed)
      ensures old(InOrder(Now(), run)) ==> InOrder(Now(), run)
    {
      hide Sound, Ids, Ordered, Now, Layout, InOrder, Stale, Running, Ledger, Run, FreeWith;
      ChunksApart();
      ghost var s := Now();
      ghost var held := HeldWith(s, run, rest);
      ghost var counted: seq<nat> := chunks[..];
      BatchCounted(s, run, rest, pub, total, j, counted, committed);
      AtNode(run);
      AtNode(j);
      Allocator.SetSize(s, All(held), pub, run, s.size[run] + s.size[j]);
      SetSize(run, size[run] + size[j]);
      ghost var s1 := Now();
      if InOrder(s, run) { RunGrows(s, s1, All(held), pub, run, s.size[j]); }
      PutNode(j, held);
      InOrderKept(s1, Now(), All(held), All(held - {j}), pub, run);
      assert held - {j} == HeldWith(Now(), run, rest - {j});
      Uncount(j, Run(0, pub) - FreeWith(s, run));
      GrewByBatch(s, Now(), run, rest, pub, total, j, counted, committed, chunks[..]);
    }

    /** The run absorbs a free block, which leaves the heap and the treap.  If the run is in
        the heap itself, the heap stays in order around it unless there is a hazard. */
    method AbsorbFree(run: nat, j: nat, ghost rest: set<nat>, ghost total: set<nat>) returns (ghost hazard: bool)
      requires Tracked(HeldWith(Now(), run, rest)) && j in Ids(Now().tree)
      requires Running(Now(), run, rest, pub, total, chunks[..], committed)
      requires j < |Now().off| && run < |Now().off| && run < |Now().size|
      requires Now().off[run] + Now().size[run] == Now().off[j]
      modifies this`freeList, this`freeIds, this`treapRoot, this`tree, this`heapSize
      modifies size, left, right, heap, entries
      ensures Tracked(HeldWith(Now(), run, rest)) && Ids(Now().tree) == old(Ids(Now().tree)) - {j} && j != run
      ensures OnlyRun(old(Now()), Now(), run)
      ensures Running(Now(), run, rest, pub, total, chunks[..], committed)
      ensures Now().size == old(Grown(Now(), run, j)).size
      ensures old(InOrder(Now(), run)) ==> (InOrder(Now(), run) <==> !hazard)
      ensures old(InOrder(Now(), run)) ==> (Mendable(Now(), run) <==> !hazard)
      ensures j < |old(Now()).size| && hazard == HazardAt(Grown(old(Now()), run, j), run, j)
      ensures var s, size' := old(Now()), old(Grown(Now(), run, j)).size;
        && j < |s.heap| && s.heap[j] < |s.h| && Sized(s.h, size') && Now().h == Remove(s.h, size', s.heap[j])
    {
      hide Sound, Ids, Ordered, Now, Layout, InOrder, Mendable, Stale, Running, Remove, HazardAt, Sized;
      ChunksApart();
      ghost var s := Now();
      ghost var held := HeldWith(s, run, rest);
      AtNode(run);
      AtNode(j);
      Allocator.SetSize(s, All(held), pub, run, s.size[run] + s.size[j]);
      SetSize(run, size[run] + size[j]);
      ghost var s1 := Now();
      Unfree(j, held);
      GrewByFree(s, Now(), run, rest, pub, total, j, chunks[..], committed);
      hazard := HazardAt(s1, run, j);
      if InOrder(s, run) {
        RunGrows(s, s1, All(held), pub, run, s.size[j]);
        RunErases(s1, Now(), All(held), All(held), pub, run, j);
      }
    }

    /** Extends the run to the right by one block, from the batch list or else from the treap;
        `more` is false when neither has one. */
    method Cascade(run: nat, i: nat, ghost total: set<nat>)
      returns (more: bool, i': nat, ghost hazard: bool)
      requires BatchLayout() && batchSize <= buffer && NoDup(Batch()) && i <= batchSize
      requires Tracked(HeldWith(Now(), run, From(Batch(), i)))
      requires Running(Now(), run, From(Batch(), i), pub, total, chunks[..], committed)
      modifies this`freeList, this`freeIds, this`treapRoot, this`tree, this`heapSize
      modifies size, left, right, heap, entries, chunks
      ensures Batch() == old(Batch()) && i <= i' <= batchSize
      ensures Tracked(HeldWith(Now(), run, From(Batch(), i')))
      ensures Running(Now(), run, From(Batch(), i'), pub, total, chunks[..], committed)
      ensures Cascaded(old(Now()), Now(), run, Batch(), i, i', more, hazard)
      ensures StepShown(old(Now()), Now(), run, Batch(), i, i', more, hazard)
    {
      hide Sound, Ids, Ordered, Now, Layout, BatchLayout, InOrder, Mendable, Running, NoDup, From, Complete;
      hide HazardAhead, HazardAt, HeldWith, StepShown, Heaped;
      BatchApart();
      ghost var s, l := Now(), Batch();
      SoundHeaped(s, All(HeldWith(s, run, From(l, i))), pub);
      RunAlone(s, run, From(l, i), pub, total, chunks[..], committed);
      RunInBounds(s, run, From(l, i), pub, total, chunks[..], committed);
      AtNode(run);
      if i < batchSize {
        FromStep(l, i);
        var j := batchList[i];
        BatchCounted(s, run, From(l, i), pub, total, j, chunks[..], committed);
        AtNode(j);
        if offset[run] + size[run] == offset[j] {
          AbsorbBatch(run, j, From(l, i), total);
          BatchStepShown(s, Now(), run, l, i);
          return true, i + 1, false;
        }
      }
      more, hazard := CascadeFree(run, i, total);
      i' := i;
    }

    /** The batch list has no block to offer. */
    method CascadeFree(run: nat, ghost i: nat, ghost total: set<nat>) returns (more: bool, ghost hazard: bool)
      requires BatchLayout() && i <= |Batch()| && NothingJoins(Now(), run, Batch(), i)
      requires Tracked(HeldWith(Now(), run, From(Batch(), i)))
      requires Running(Now(), run, From(Batch(), i), pub, total, chunks[..], committed)
      modifies this`freeList, this`freeIds, this`treapRoot, this`tree, this`heapSize
      modifies size, left, right, heap, entries
      ensures Batch() == old(Batch()) && Tracked(HeldWith(Now(), run, From(Batch(), i)))
      ensures Running(Now(), run, From(Batch(), i), pub, total, chunks[..], committed)
      ensures Cascaded(old(Now()), Now(), run, Batch(), i, i, more, hazard)
      ensures StepShown(old(Now()), Now(), run, Batch(), i, i, more, hazard)
    {
      hide Sound, Ids, Ordered, Now, Layout, BatchLayout, InOrder, Mendable, Running, From, Complete, HazardAhead;
      hide T.IsNext, HazardAt, HeldWith, StepShown, Heaped, Remove;
      BatchApart();
      ghost var s, rest := Now(), From(Batch(), i);
      ghost var l := Batch();
      SoundHeaped(s, All(HeldWith(s, run, rest)), pub);
      RunAlone(s, run, rest, pub, total, chunks[..], committed);
      RunInBounds(s, run, rest, pub, total, chunks[..], committed);
      AtNode(run);
      var j := TreapNext(offset[run] + size[run], HeldWith(s, run, rest));
      if j != NIL { AtNode(j); }
      if j != NIL && offset[run] + size[run] == offset[j] {
        OneHazard(s, run, rest, pub, total, chunks[..], committed, j);
        hazard := AbsorbFree(run, j, rest, total);
        FreeStepShown(s, Grown(s, run, j), Now(), run, l, i, j, hazard);
        return true, hazard;
      }
      NothingFollows(s, run, j);
      StopShown(s, run, l, i);
      return false, false;
    }

    /** The memory of a merged block goes back to the system, chunk by chunk. */
    method ChunkDecommit(o: nat, n: nat)
      requires Layout() && n > 0 && o + n <= pub
      modifies this`committed
      ensures pub <= 255 * |chunks[..]| && Now() == old(Now())
      ensures committed == old(committed) - Interval(ChunkInterval(chunks[..], o, n, pub))
    {
      var (from, to) := ChunkInterval(chunks[..], o, n, pub);
      if to > from {
        committed := committed - Run(from, to - from);
      }
    }

    /** A complete run is decommitted and becomes a free block, or, if it began in one, has
        its heap position mended. */
    method FinishRun(run: nat, insert: bool, ghost rest: set<nat>, ghost total: set<nat>)
      requires Tracked(HeldWith(Now(), run, rest)) && (insert <==> run !in Ids(Now().tree))
      requires Running(Now(), run, rest, pub, total, chunks[..], committed) && Complete(Now(), run)
      modifies this`committed, this`treapRoot, this`tree, this`heapSize, left, right, heap, entries
      ensures Tracked(rest) && Resting(Now(), rest, pub, total, chunks[..], committed)
      ensures Now().off == old(Now()).off && Now().size == old(Now()).size
      ensures Ids(Now().tree) == Ids(old(Now()).tree) + {run}
      ensures old(InOrder(Now(), run)) ==> HeapOrdered()
      ensures !insert ==> (HeapOrdered() <==> old(Mendable(Now(), run)))
      ensures HeapOf(Now()) == P.Finish(RunOf(old(Now()), run))
    {
      hide Sound, Ids, Ordered, Now, Layout, InOrder, Mendable, Running, Resting, Complete, Run;
      hide Heaped, HeapOf, RunOf, P.Finish, Push, MaxHeap.Fix, Sized;
      ChunksApart();
      ghost var s := Now();
      SoundHeaped(s, All(HeldWith(s, run, rest)), pub);
      RunAlone(s, run, rest, pub, total, chunks[..], committed);
      RunInBounds(s, run, rest, pub, total, chunks[..], committed);
      AtNode(run);
      ChunkDecommit(offset[run], size[run]);
      if insert {
        EndsInOrder(s, run);
        Release(run, rest + {run});
        PushedRunShown(s, Now(), run);
        assert rest + {run} - {run} == rest;
      } else {
        MendRun(run, rest);
        FixedRunShown(s, Now(), run);
        assert Ids(s.tree) == Ids(s.tree) + {run};
      }
      RunFinished(s, Now(), run, rest, pub, total, chunks[..], old(committed));
    }

    method MendRun(run: nat, ghost rest: set<nat>)
      requires Tracked(rest) && run in Ids(Now().tree)
      modifies heap, entries
      ensures Tracked(rest)
      ensures var s, s' := old(Now()), Now(); s' == s.(heap := s'.heap, h := s'.h)
      ensures var s := old(Now());
        && run < |s.heap| && s.heap[run] < |s.h| && Sized(s.h, s.size)
        && Now().h == MaxHeap.Fix(s.h, s.size, s.heap[run])
      ensures old(InOrder(Now(), run)) ==> HeapOrdered()
      ensures HeapOrdered() <==> old(Mendable(Now(), run))
    {
      hide Sound, Ids, Ordered, Now, Layout, H.Linked, H.KeepsOthers, Stale, MaxHeap.Fix, Sized;
      ghost var s := Now();
      HeapReady(s, All(rest), pub);
      HeapFix(run);
      Fixed(s, All(rest), pub, run, Now());
      if InOrder(s, run) { InOrderMendable(s, All(rest), pub, run); }
    }

    /** Merges the batched blocks from `i` on into one run, as far as it goes.  The heap stays in
        order unless an erasure on the way was hazardous, which takes a gap that is filled.  For a
        run of a single batched block the condition is exact. */
    method CoalesceRun(i: nat, ghost total: set<nat>) returns (i': nat, ghost hazard: bool)
      requires BatchLayout() && batchSize <= buffer && NoDup(Batch()) && i < batchSize
      requires Tracked(From(Batch(), i)) && Ascending(Batch(), Now().off)
      requires Resting(Now(), From(Batch(), i), pub, total, chunks[..], committed)
      modifies this`freeList, this`freeIds, this`treapRoot, this`tree, this`heapSize, this`committed
      modifies size, left, right, heap, entries, chunks
      ensures Batch() == old(Batch()) && i < i' <= batchSize && Now().off == old(Now()).off
      ensures Tracked(From(Batch(), i'))
      ensures Resting(Now(), From(Batch(), i'), pub, total, chunks[..], committed)
      ensures old(HeapOrdered()) && !hazard ==> HeapOrdered()
      ensures old(!FillsGap(Free(Now()), Held(Now(), From(Batch(), i))))
              ==> !hazard && !FillsGap(Free(Now()), Held(Now(), From(Batch(), i')))
      ensures i' == i + 1 ==> (hazard <==> SandwichHazard(old(Now()), old(Batch())[i]))
      ensures i' == i + 1 && old(HeapOrdered()) ==> (HeapOrdered() <==> !hazard)
      ensures RunShown(old(Now()), Now(), Batch(), i, i', hazard)
    {
      hide Sound, Ids, Ordered, Now, Layout, BatchLayout, InOrder, Mendable, Running, NoDup, From, Complete, Adjoins;
      hide Begun, FillsGap, Free, Held, HeldWith, Edged, Resting, Ascending, Underway, Cascaded, Lone, Untroubled;
      hide HazardAhead, SandwichHazard, RunOf, HeapOf, Rest, WholeRun, Leading, RunShown;
      BatchApart();
      ghost var s0 := Now();
      ghost var l := Batch();
      ghost var counted: seq<nat> := chunks[..];
      ghost var paid := committed;
      ghost var rest := From(l, i);
      FromStep(l, i);
      var id := batchList[i];
      var run, insert := StartRun(id, rest, total);
      ghost var s1 := Now();
      i', hazard := i + 1, false;
      UnderwayBegins(s0, s1, run, id, insert, rest, pub, total, counted, paid);
      InsertsAlone(s0, s1, run, id, insert);
      LoneBegins(s1, run);
      UntroubledBegins(s0, s1, run, id, rest);
      RunInBounds(s1, run, From(l, i + 1), pub, total, chunks[..], committed);
      LeadingBegins(s0, s1, run, l, i, insert);
      ghost var t := WholeRun(s0, l, i);
      var more := true;
      while more
        invariant Batch() == l && i < i' <= batchSize
        invariant Tracked(HeldWith(Now(), run, From(l, i')))
        invariant Running(Now(), run, From(l, i'), pub, total, chunks[..], committed)
        invariant Underway(s0, Now(), run, id) && (insert <==> run !in Ids(s0.tree))
        invariant old(HeapOrdered()) && !hazard ==> InOrder(Now(), run)
        invariant Untroubled(s0, Now(), run, rest, hazard)
        invariant i' == i + 1 ==> Lone(s1, Now(), run, hazard)
        invariant !more ==> Complete(Now(), run) && NothingJoins(Now(), run, l, i')
        invariant Leading(t, Now(), run, l, i', more, hazard)
        decreases more, batchSize - i', |Ids(Now().tree)|
      {
        more, i', hazard := Extend(s0, s1, run, id, insert, i, i', hazard, total, counted, paid, t);
      }
      ghost var s := Now();
      UnderwayInTree(s0, s, run, id);
      UntroubledEnd(s0, s, run, rest, hazard);
      if i' == i + 1 {
        LoneEnd(s1, s, run, hazard);
        LoneInserted(s0, s1, run, id, insert);
      }
      FinishRun(run, insert, From(l, i'), total);
      RunEnd(s0, s, Now(), run, l, i, i', pub, total, chunks[..], committed);
      RunEndShown(s0, s, Now(), run, l, i, i', hazard);
    }

    /** One more step of a run, and what it keeps of how the run began. */
    method Extend(ghost s0: State, ghost s1: State, run: nat, ghost id: nat, ghost insert: bool, ghost i0: nat, i: nat,
                  ghost hazard: bool, ghost total: set<nat>, ghost counted: seq<nat>, ghost paid: set<nat>,
                  ghost t: P.Stepped)
      returns (more: bool, i': nat, ghost hazard': bool)
      requires BatchLayout() && batchSize <= buffer && NoDup(Batch()) && i0 < i <= batchSize
      requires Resting(s0, From(Batch(), i0), pub, total, counted, paid) && Begun(s0, s1, run, id, insert)
      requires id in From(Batch(), i0)
      requires Tracked(HeldWith(Now(), run, From(Batch(), i)))
      requires Running(Now(), run, From(Batch(), i), pub, total, chunks[..], committed)
      requires Underway(s0, Now(), run, id)
      requires Untroubled(s0, Now(), run, From(Batch(), i0), hazard)
      requires i == i0 + 1 ==> Lone(s1, Now(), run, hazard)
      requires Leading(t, Now(), run, Batch(), i, true, hazard)
      modifies this`freeList, this`freeIds, this`treapRoot, this`tree, this`heapSize
      modifies size, left, right, heap, entries, chunks
      ensures Batch() == old(Batch()) && i <= i' <= batchSize
      ensures Tracked(HeldWith(Now(), run, From(Batch(), i')))
      ensures Running(Now(), run, From(Batch(), i'), pub, total, chunks[..], committed)
      ensures Underway(s0, Now(), run, id)
      ensures more ==> i' > i || |Ids(Now().tree)| < |Ids(old(Now()).tree)|
      ensures !more ==> Complete(Now(), run) && NothingJoins(Now(), run, Batch(), i')
      ensures hazard ==> hazard'
      ensures old(InOrder(Now(), run)) && !hazard' ==> InOrder(Now(), run)
      ensures Untroubled(s0, Now(), run, From(Batch(), i0), hazard')
      ensures i' == i0 + 1 ==> Lone(s1, Now(), run, hazard')
      ensures Leading(t, Now(), run, Batch(), i', more, hazard')
    {
      hide Sound, Ids, Ordered, Now, Layout, BatchLayout, InOrder, Mendable, Running, NoDup, From, Complete, Adjoins;
      hide Begun, HeldWith, Edged, Resting, Underway, Cascaded, Lone, Untroubled, HazardAhead, Leading, StepShown;
      ghost var s := Now();
      ghost var l := Batch();
      ghost var met := false;
      BatchApart();
      RunInBounds(s, run, From(l, i), pub, total, chunks[..], committed);
      more, i', met := Cascade(run, i, total);
      hazard' := hazard || met;
      UntroubledStep(s0, s, Now(), run, id, l, i0, i, i', more, hazard, met, pub, total, counted, paid);
      if InOrder(s, run) && !met { OrderStep(s, Now(), run, l, i, i', more, met); }
      if i' == i0 + 1 {
        LoneStep(s0, s1, s, Now(), run, id, insert, l, i, more, hazard, met, From(l, i0), pub, total, counted, paid);
      }
      UnderwayGoesOn(s0, s, Now(), run, id, l, i, i', more, met);
      LeadingOn(t, s, Now(), run, l, i, i', more, hazard, met);
    }

    // ---------- merging the whole batch ----------

    method SortBatch()
      requires Accounted()
      modifies this`batchList, this`batchSort, batchList, batchSort, radixCount, radixSum
      ensures batchList == old(batchList) && batchSort == old(batchSort)
      ensures Now() == old(Now()) && BatchIds() == old(BatchIds()) && multiset(Batch()) == multiset(old(Batch()))
      ensures BatchLayout() && NoDup(Batch()) && Ascending(Batch(), Now().off) && Tracked(BatchIds())
      ensures Resting(Now(), BatchIds(), pub, FreePages() + BatchedPages(), chunks[..], committed)
      ensures batchSize <= buffer && occupied == |Run(0, pub) - (FreePages() + BatchedPages())|
    {
      hide Sound, Ids, NoDup, From, Resting, Ascending, Summed, Free, Held, Run, R.Keyed, R.Narrow, R.Sorted;
      ghost var s := Now();
      ghost var l := Batch();
      Sortable(s, l, pub, FreePages() + BatchedPages(), chunks[..], committed);
      batchList, batchSort := R.Sort(offset, batchList, batchSort, batchSize, radixCount, radixSum, threshold);
      Coalescing.Sorted(s, l, Batch());
    }

    /** Merges run after run until the batch list is used up. */
    method MergeBatch(ghost total: set<nat>) returns (ghost hazard: bool)
      requires BatchLayout() && batchSize <= buffer && NoDup(Batch()) && Tracked(BatchIds())
      requires Resting(Now(), BatchIds(), pub, total, chunks[..], committed) && Ascending(Batch(), Now().off)
      modifies this`freeList, this`freeIds, this`treapRoot, this`tree, this`heapSize, this`committed
      modifies size, left, right, heap, entries, chunks
      ensures Tracked({}) && Resting(Now(), {}, pub, total, chunks[..], committed)
      ensures old(HeapOrdered()) && !hazard ==> HeapOrdered()
      ensures old(!FillsGap(FreePages(), BatchedPages())) ==> !hazard
      ensures old(batchSize) == 1 ==> (hazard <==> BatchHazard(old(Now()), old(Batch())))
      ensures old(batchSize) == 1 && old(HeapOrdered()) ==> (HeapOrdered() <==> !hazard)
      ensures P.MergeRuns(HeapOf(old(Now())), Rest(old(Now()), old(Batch()), 0)) == P.Merging(HeapOf(Now()), hazard)
    {
      hide Sound, Ids, NoDup, From, Resting, Ascending, Free, Held, Run, FillsGap, Ordered, Now, BatchLayout;
      hide BatchHazard, RunShown, P.Merges, HeapOf, Rest;
      BatchApart();
      ghost var s0, l := Now(), Batch();
      ghost var t := P.MergeRuns(HeapOf(s0), Rest(s0, l, 0));
      MergesBegin(t, HeapOf(s0), Rest(s0, l, 0));
      var i := 0;
      hazard := false;
      while i < batchSize
        invariant i <= batchSize && Batch() == l
        invariant Ascending(Batch(), Now().off) && Tracked(From(Batch(), i))
        invariant Resting(Now(), From(Batch(), i), pub, total, chunks[..], committed)
        invariant old(HeapOrdered()) && !hazard ==> HeapOrdered()
        invariant !FillsGap(Free(s0), Held(s0, From(l, 0))) ==>
          !hazard && !FillsGap(Free(Now()), Held(Now(), From(Batch(), i)))
        invariant i == 0 ==> Now() == s0 && !hazard
        invariant P.Merges(t, HeapOf(Now()), Rest(Now(), l, i), hazard)
        invariant batchSize == 1 && i == 1 ==> (hazard <==> BatchHazard(s0, l))
        invariant batchSize == 1 && i == 1 && old(HeapOrdered()) ==> (HeapOrdered() <==> !hazard)
      {
        ghost var met := false;
        ghost var first := i == 0;
        ghost var s, j, any := Now(), i, hazard;
        i, met := CoalesceRun(i, total);
        hazard := hazard || met;
        MergesShown(t, s, Now(), l, j, i, any, met);
        if first { OneEntry(s0, l); }
      }
      FromEnd(Batch());
      MergesEnd(t, Now(), l, hazard);
    }

    method ResetBatch(ghost total: set<nat>)
      requires BatchLayout() && Tracked({}) && Resting(Now(), {}, pub, total, chunks[..], committed)
      requires occupied == |Run(0, pub) - total|
      modifies this`batchSize, this`batchPages, this`batchMin, this`batchMax
      ensures Accounted() && batchSize == 0 && Now() == old(Now())
      ensures FreePages() == total && BatchedPages() == {}
    {
      hide Sound, Ids, NoDup, From, Resting, Summed, Free, Held, Run, Now, BatchLayout, Tracked;
      batchSize := 0;
      batchPages := 0;
      batchMin := NIL;
      batchMax := NIL;
      BatchApart();
      NothingBatched(Now(), Batch());
      AllFreed(Now(), pub, total, chunks[..], committed);
      assert total + {} == total;
    }

    /** Batched blocks start at different pages. */
    lemma BatchDistinct()
      requires Accounted()
      ensures StartApart(Now(), Batch()) && forall x :: x in Batch() ==> x < |Now().off| && x < |Now().size|
    {
      hide Sound, Ids, From, Resting, Ascending, Summed, Free, Held, Run, Now, BatchLayout, StartApart, Layout;
      BatchStarts(Now(), Batch(), pub, FreePages() + BatchedPages(), chunks[..], committed);
    }

    /** Sorts the batch and merges it run after run. */
    method MergeAll() returns (ghost hazard: bool)
      requires Accounted()
      modifies this`batchList, this`batchSort, batchList, batchSort, radixCount, radixSum
      modifies this`freeList, this`freeIds, this`treapRoot, this`tree, this`heapSize, this`committed
      modifies size, left, right, heap, entries, chunks
      ensures batchList == old(batchList) && batchSort == old(batchSort) && BatchLayout() && Tracked({})
      ensures Resting(Now(), {}, pub, old(FreePages() + BatchedPages()), chunks[..], committed)
      ensures old(HeapOrdered()) && !hazard ==> HeapOrdered()
      ensures old(!FillsGap(FreePages(), BatchedPages())) ==> !hazard
      ensures old(batchSize) == 1 ==> (hazard <==> BatchHazard(old(Now()), old(Batch())))
      ensures old(batchSize) == 1 && old(HeapOrdered()) ==> (HeapOrdered() <==> !hazard)
      ensures P.Merged(old(Image())) == P.Merging(HeapOf(Now()), hazard)
    {
      hide Sound, Ids, NoDup, From, Resting, Ascending, Summed, Free, Held, Run, FillsGap, Ordered, Now, BatchLayout;
      hide Layout, Tracked, Accounted, BatchHazard, HeapOf, Rest, P.InOffsetOrder, StartApart;
      ghost var total := FreePages() + BatchedPages();
      ghost var l, s := Batch(), Now();
      BatchDistinct();
      SortBatch();
      SortShown(s, l, Batch());
      OnlyEntry(l, Batch());
      hazard := MergeBatch(total);
    }

    /** Every batched block becomes free, merged with its neighbours. The heap stays in order unless
        one of the erasures was hazardous; with a single block in the batch it does so exactly then. */
    method Coalesce() returns (ghost hazard: bool)
      requires Consistent() && batchSize > 0
      modifies this`batchList, this`batchSort, batchList, batchSort, radixCount, radixSum
      modifies this`freeList, this`freeIds, this`treapRoot, this`tree, this`heapSize, this`committed
      modifies this`batchSize, this`batchPages, this`batchMin, this`batchMax
      modifies size, left, right, heap, entries, chunks
      ensures Consistent() && batchSize == 0
      ensures batchList == old(batchList) && batchSort == old(batchSort)
      ensures FreePages() == old(FreePages() + BatchedPages())
      ensures BatchedPages() == {} && UsedPages() == old(UsedPages())
      ensures old(HeapOrdered()) && !hazard ==> HeapOrdered()
      ensures old(!FillsGap(FreePages(), BatchedPages())) ==> !hazard
      ensures old(batchSize) == 1 ==> (hazard <==> BatchHazard(old(Now()), old(Batch())))
      ensures old(batchSize) == 1 && old(HeapOrdered()) ==> (HeapOrdered() <==> !hazard)
      ensures P.Merged(old(Image())) == P.Merging(Image().heap, hazard) && Image().batch == []
    {
      hide Sound, Ids, NoDup, From, Resting, Ascending, Summed, Free, Held, Run, FillsGap, Ordered, Now, BatchLayout;
      hide Layout, Tracked, BatchHazard, Lodged, HeapOf, P.Merged;
      ghost var total := FreePages() + BatchedPages();
      hazard := MergeAll();
      ResetBatch(total);
      assert total + {} == total;
    }

    // ---------- freeing pages ----------

    /** A node for a batched block. */
    method NewBlock(o: nat, n: nat, ghost p: nat, ghost held: set<nat>) returns (id: nat)
      requires Books(held) && n > 0 && o + n <= pub
      requires Run(o, n) !! Free(Now()) && Run(o, n) !! Held(Now(), held)
      requires p in Run(o, n) && forall i :: i in slabs ==> slabs[i] != p
      modifies this`freeList, this`nextNode, this`freeIds, offset, size, left, right, heap
      ensures Tracked(held + {id}) && id !in Ids(old(Now()).tree) && id !in held
      ensures var s, s' := old(Now()), Now();
        && id < |s.off| && id < |s.size|
        && s'.off == s.off[id := o] && s'.size == s.size[id := n] && s'.tree == s.tree && s'.h == s.h
      ensures old(HeapOrdered()) ==> HeapOrdered()
    {
      hide Sound, Ids, Run, Free, Held, Ordered, Now, BlocksApart, Spare;
      ghost var s := Now();
      RoomFor(s, held, slabs, pub, o, n, p);
      id := GetNode(held);
      FillNode(id, o, n, held + {id});
    }

    /** The node is appended to the batch list and its pages are no longer occupied. */
    method Enlist(id: nat, o: nat, n: nat)
      requires BatchLayout() && batchSize < buffer && n <= occupied
      modifies this`occupied, this`batchSize, this`batchPages, this`batchMin, this`batchMax, batchList
      ensures BatchLayout() && Now() == old(Now()) && chunks[..] == old(chunks[..])
      ensures batchSize == old(batchSize) + 1 && Batch() == old(Batch()) + [id]
      ensures batchPages == old(batchPages) + n && occupied == old(occupied) - n
      ensures batchMin == Least(old(batchMin), o) && batchMax == Greatest(old(batchMax), o)
    {
      hide Now, BatchLayout;
      BatchApart();
      occupied := occupied - n;
      batchList[batchSize] := id;
      batchSize := batchSize + 1;
      batchPages := batchPages + n;
      if batchMin == NIL || o < batchMin { batchMin := o; }
      if batchMax == NIL || o > batchMax { batchMax := o; }
    }

    /** Used pages are batched, to be merged with the free ones later; `p` is one of them that no
        slab starts at. */
    method BatchPages(o: nat, n: nat, ghost p: nat)
      requires Consistent() && batchSize < buffer && n > 0 && o + n <= pub && Run(o, n) <= UsedPages()
      requires p in Run(o, n) && forall i :: i in slabs ==> slabs[i] != p
      modifies this`freeList, this`nextNode, this`freeIds, this`occupied
      modifies this`batchSize, this`batchPages, this`batchMin, this`batchMax
      modifies offset, size, left, right, heap, batchList
      ensures Accounted() && batchSize == old(batchSize) + 1 && batchPages == old(batchPages) + n
      ensures FreePages() == old(FreePages()) && BatchedPages() == old(BatchedPages()) + Run(o, n)
      ensures UsedPages() == old(UsedPages()) - Run(o, n)
      ensures old(HeapOrdered()) ==> HeapOrdered()
      ensures Image() == P.Image(old(Image()).heap, old(Image()).batch + [PageFree(o, n)])
    {
      hide Sound, Ids, From, Balanced, Free, Held, Run, Ordered, Now, BatchLayout, Layout, BlocksApart, Lodged, Spare;
      hide ImageOf;
      ghost var s, l := Now(), Batch();
      ChunksApart();
      LodgedSpare(slabs, slabPages, UsedPages(), pub, Free(s) + Held(s, From(l, 0)));
      CanBatch(s, l, batchPages, batchMin, batchMax, occupied, chunks[..], committed, pub, o, n);
      BatchApart();
      ChunksApart();
      var id := NewBlock(o, n, p, From(l, 0));
      Enlisted(s, Now(), l, batchPages, batchMin, batchMax, occupied, chunks[..], committed, pub, id, o, n);
      FillShown(s, Now(), All(From(l, 0)), pub, l, id, o, n);
      Enlist(id, o, n);
    }

    lemma SlabsHavePages()
      requires Consistent()
      ensures slabPages > 1 && buffer > 0 && batchSize <= buffer && pub < NIL
    {
      hide Sound, Balanced, Lodged, BatchLayout, Placed;
    }

    /** Pages that no slab has are batched. */
    method PageDeallocate(o: nat, n: nat)
      requires Consistent() && batchSize < buffer && n > 0 && o + n <= pub
      requires Run(o, n) <= UsedPages() && Run(o, n) !! SlabPages()
      modifies this`freeList, this`nextNode, this`freeIds, this`occupied
      modifies this`batchSize, this`batchPages, this`batchMin, this`batchMax
      modifies offset, size, left, right, heap, batchList
      ensures Consistent() && batchSize == old(batchSize) + 1 && batchPages == old(batchPages) + n
      ensures FreePages() == old(FreePages()) && BatchedPages() == old(BatchedPages()) + Run(o, n)
      ensures UsedPages() == old(UsedPages()) - Run(o, n)
      ensures old(HeapOrdered()) ==> HeapOrdered()
      ensures Image() == P.Image(old(Image()).heap, old(Image()).batch + [PageFree(o, n)])
    {
      hide Accounted, Run, Lodged, LodgedPages, UsedPages, FreePages, BatchedPages, HeapOrdered, Image;
      ghost var used := UsedPages();
      FirstPage(o, n);
      SlabsHavePages();
      NotLodged(slabs, slabPages, o);
      LodgedUsed(slabs, slabPages, used, pub);
      BatchPages(o, n, o);
      LodgedStill(slabs, slabPages, used, UsedPages(), pub);
    }

    /** The least and the greatest batched offset are those of batched pages. */
    lemma ExtremesBatched()
      requires Consistent() && batchSize > 0
      ensures batchMin in BatchedPages() && batchMax in BatchedPages()
    {
      BatchApart();
      hide Sound, Lodged, Ids, Layout, BatchLayout, Run, Metered, NoDup;
      BatchExtremes(Now(), Batch(), batchPages, batchMin, batchMax, occupied, chunks[..], committed, pub);
    }

    lemma UsedBelow(o: nat, n: nat)
      requires Run(o, n) <= UsedPages() && n > 0
      ensures o + n <= pub
    {
      hide FreePages, BatchedPages;
      assert o + n - 1 in Run(o, n);
    }

    // ---------- slabs ----------

    /** A node for a slab in pages just taken. */
    method TrackSlab(o: nat, class_: nat) returns (s: nat)
      requires Consistent() && o + slabPages <= pub
      requires Run(o, slabPages) <= UsedPages() && Run(o, slabPages) !! SlabPages()
      modifies this`freeList, this`nextNode, this`freeIds, this`slabs, offset, size, left, right, heap
      ensures Consistent() && s < pub && s !in old(slabs) && slabs == old(slabs)[s := o]
      ensures SlabPages() == old(SlabPages()) + Run(o, slabPages)
      ensures FreePages() == old(FreePages()) && BatchedPages() == old(BatchedPages())
      ensures UsedPages() == old(UsedPages()) && Batch() == old(Batch()) && Image() == old(Image())
      ensures old(HeapOrdered()) ==> HeapOrdered()
    {
      hide Sound, Ids, From, Balanced, Free, Held, Run, Ordered, Now, BatchLayout, Layout, BlocksApart, Lodged, Spare;
      hide LodgedPages, Placed, ImageOf;
      ghost var s0, l, used := Now(), Batch(), UsedPages();
      BatchApart();
      ChunksApart();
      assert Free(s0) + Held(s0, From(l, 0)) !! used;
      LodgedSpare(slabs, slabPages, used, pub, Free(s0) + Held(s0, From(l, 0)));
      BalancedApart(s0, l, batchPages, batchMin, batchMax, occupied, chunks[..], committed, pub);
      FirstPage(o, slabPages);
      NotLodged(slabs, slabPages, o);
      RoomFor(s0, From(l, 0), slabs, pub, o, slabPages, o);
      s := GetNode(From(l, 0));
      FillNode(s, o, class_, From(l, 0) + {s});
      FillShown(s0, Now(), All(From(l, 0)), pub, l, s, o, class_);
      BalancedElsewhere(s0, Now(), l, batchPages, batchMin, batchMax, occupied, chunks[..], committed, pub, s, o,
          class_);
      Lodge(slabs, slabPages, used, pub, s, o);
      assert From(l, 0) + {s} + slabs.Keys == From(l, 0) + (slabs[s := o]).Keys;
      slabs := slabs[s := o];
      SlabPlaced(Now(), old(slabs), slabs, s, o);
    }

    /** What giving up a slab does to the slabs' pages. */
    lemma GivenUp(s: nat)
      requires Consistent() && s in slabs
      ensures LodgedPages(slabs - {s}, slabPages) == SlabPages() - Run(slabs[s], slabPages)
      ensures UsedPages() - Run(slabs[s], slabPages) - LodgedPages(slabs - {s}, slabPages) == UsedPages() - SlabPages()
    {
      hide Sound, Balanced, BatchLayout, Placed, Lodged, LodgedPages, Run, UsedPages, Accounted;
      Unlodge(slabs, slabPages, UsedPages(), pub, s);
      LodgedIn(slabs, slabPages, s);
    }

    /** A slab is given up: its pages are batched and its node returned. */
    method GiveUp(s: nat)
      requires Consistent() && batchSize < buffer && s in slabs
      modifies this`freeList, this`nextNode, this`freeIds, this`occupied, this`slabs
      modifies this`batchSize, this`batchPages, this`batchMin, this`batchMax
      modifies offset, size, left, right, heap, batchList
      ensures Consistent() && batchSize == old(batchSize) + 1 && slabs == old(slabs) - {s}
      ensures FreePages() == old(FreePages())
      ensures BatchedPages() == old(BatchedPages()) + Run(old(slabs)[s], slabPages)
      ensures UsedPages() == old(UsedPages()) - Run(old(slabs)[s], slabPages)
      ensures old(HeapOrdered()) ==> HeapOrdered()
      ensures Image() == P.Image(old(Image()).heap, old(Image()).batch + [PageFree(old(slabs)[s], slabPages)])
    {
      hide Sound, Ids, From, Balanced, Run, Ordered, BatchLayout, Lodged, Placed, ImageOf;
      ghost var used := UsedPages();
      Unlodge(slabs, slabPages, used, pub, s);
      SecondPage(slabs[s], slabPages);
      var o := SlabStart(s);
      BatchPages(o, slabPages, o + 1);
      ReturnSlab(s);
    }

    /** The first page of a slab, as its node has it. */
    method SlabStart(s: nat) returns (o: nat)
      requires Consistent() && s in slabs
      ensures o == slabs[s]
    {
      hide Sound, Balanced, Lodged, BatchLayout;
      o := offset[s];
    }

    method ReturnSlab(s: nat)
      requires Accounted() && s in slabs
      modifies this`freeList, this`freeIds, this`slabs, heap
      ensures Accounted() && slabs == old(slabs) - {s}
      ensures FreePages() == old(FreePages()) && BatchedPages() == old(BatchedPages())
        && UsedPages() == old(UsedPages()) && Image() == old(Image())
      ensures old(HeapOrdered()) ==> HeapOrdered()
    {
      hide Sound, Ids, From, Balanced, Free, Held, Run, Ordered, Now, BatchLayout, Layout, Placed;
      BatchApart();
      ChunksApart();
      ghost var s0 := Now();
      PutSlab(s, From(Batch(), 0));
      BalancedFields(s0, Now(), Batch(), batchPages, batchMin, batchMax, occupied, chunks[..], committed, pub);
    }

    // ---------- taking pages out of the free ones ----------

    /** Memory is committed for the run, chunk by chunk, and the run is counted. */
    method CommitRun(o: nat, n: nat, ghost used: set<nat>)
      requires Layout() && n > 0 && o + n <= pub && Ledger(chunks[..], used) && used !! Run(o, n)
      modifies this`committed, chunks
      ensures pub <= 255 * |old(chunks[..])| && Now() == old(Now())
      ensures committed == old(committed) + Interval(ChunkInterval(old(chunks[..]), o, n, pub))
      ensures Ledger(chunks[..], used + Run(o, n))
    {
      hide Ledger, Run, Now;
      var (from, to) := ChunkInterval(chunks[..], o, n, pub);
      if to > from {
        committed := committed + Run(from, to - from);
      }
      Increment(chunks, o, n, used);
    }

    /** The run is committed and cut out of a free block. */
    method TakePages(id: nat, left: nat, n: nat) returns (o: nat)
      requires Consistent() && id in Ids(Now().tree) && id < |Now().off| && id < |Now().size|
      requires n > 0 && left + n <= Now().size[id]
      modifies this`freeList, this`nextNode, this`freeIds, this`treapRoot, this`tree, this`heapSize
      modifies offset, size, this.left, right, heap, entries, this`committed, this`occupied, chunks
      ensures Consistent() && id < |old(Now()).off| && o == old(Now()).off[id] + left && o + n <= pub
      ensures Batch() == old(Batch())
      ensures Run(o, n) <= old(FreePages()) && FreePages() == old(FreePages()) - Run(o, n)
      ensures BatchedPages() == old(BatchedPages()) && UsedPages() == old(UsedPages()) + Run(o, n)
      ensures old(HeapOrdered()) ==> HeapOrdered()
      ensures CutAs(old(Now()), Now(), id, left, n) && Image().batch == old(Image()).batch
    {
      hide Sound, Ids, From, Balanced, Free, Held, Run, Ordered, Now, BatchLayout, Layout, BlocksApart, RunTaken;
      hide Ledger, ChunkInterval, Lodged, Spare, CutAs, ImageOf;
      ghost var used := UsedPages();
      LodgedUsed(slabs, slabPages, used, pub);
      ghost var s, l := Now(), Batch();
      ghost var counted: seq<nat> := chunks[..];
      CanTake(s, l, batchPages, batchMin, batchMax, occupied, counted, committed, pub, id, left, n);
      BatchApart();
      ChunksApart();
      LodgedSpare(slabs, slabPages, used, pub, Free(s) + Held(s, From(l, 0)));
      AtNode(id);
      o := offset[id] + left;
      CommitRun(o, n, Run(0, pub) - Free(s));
      TakeRun(id, left, n, From(l, 0));
      Taken(s, Now(), l, batchPages, batchMin, batchMax, occupied, counted, old(committed), pub, o, n, chunks[..],
            All(From(l, 0)));
      occupied := occupied + n;
      BatchKept(s, Now(), l, pub, o, n);
      LodgedStill(slabs, slabPages, used, UsedPages(), pub);
    }

    // ---------- finding and taking pages ----------

    /** The spot is in a free block and answers the request. */
    ghost predicate Usable(p: Spot, q: Request)
      reads this`heapSize, this`treapRoot, this`freeList, this`nextNode, this`tree, this`freeIds
      reads offset, size, left, right, heap, entries
    {
      && p.id in Ids(Now().tree) && p.id < |Now().off| && p.id < |Now().size| && p.left + q.pages <= Now().size[p.id]
      && Answers(q, Now().off[p.id] + p.left, FreePages())
    }

    /** The spot is the one that the search finds among plain blocks. */
    ghost predicate Sought(p: Spot, q: Request)
      reads this`heapSize, this`treapRoot, this`freeList, this`nextNode, this`tree, this`freeIds
      reads offset, size, left, right, heap, entries
    {
      p.id < |Now().heap| && P.Found(HeapOf(Now()), q) == Some(Spot(Now().heap[p.id], p.left))
    }

    /** The spot begins the block that starts at `o`. */
    ghost predicate Begins(p: Spot, o: nat)
      reads this`heapSize, this`treapRoot, this`freeList, this`nextNode, this`tree, this`freeIds
      reads offset, size, left, right, heap, entries
    {
      && p.left == 0 && p.id < |Now().heap| && p.id < |Now().off| && Now().off[p.id] == o
      && P.StartingAt(HeapOf(Now()), o) == Now().heap[p.id]
    }

    method Search(q: Request) returns (r: Option<Spot>)
      requires Consistent() && Legal(q) && Safe(q, pub)
      ensures match r
        case Some(p) =>
          && Usable(p, q) && Sought(p, q)
          && p.id < |Now().off| && TakenFrom(q, Now().off[p.id] + p.left, FreePages(), HeapOrdered())
        case None => (HeapOrdered() ==> Unanswerable(q, FreePages())) && P.Take(Image(), q) == P.Answer(None, Image())
      ensures Unanswerable(q, FreePages()) ==> r.None?
    {
      hide Sound, Lodged, Balanced, BlocksApart, Ids, Answers, Free, Held, Safe, Legal, PageBisect, Ordered, From,
          BatchLayout;
      hide Heaped, P.Found, TakenFrom;
      ghost var s := Now();
      SoundHeaped(s, All(BatchIds()), pub);
      FoundShown(s, q);
      BalancedApart(s, Batch(), batchPages, batchMin, batchMax, occupied, chunks[..], committed, pub);
      SpotAnswers(s, All(BatchIds()), BatchIds(), pub, q);
      SpotBelongs(s, All(BatchIds()), BatchIds(), pub, q);
      if HeapOrdered() { NothingAnswers(s, All(BatchIds()), BatchIds(), pub, q); }
      r := PageBisect(entries[..heapSize], offset[..], size[..], 0, q);
    }

    /** Pages found in a free block are taken. */
    method AllocateAt(p: Spot, q: Request) returns (o: nat)
      requires Consistent() && Legal(q) && Usable(p, q)
      modifies this`freeList, this`nextNode, this`freeIds, this`treapRoot, this`tree, this`heapSize
      modifies offset, size, this.left, right, heap, entries, this`committed, this`occupied, chunks
      ensures Consistent() && Answers(q, o, old(FreePages())) && o + q.pages <= pub && Batch() == old(Batch())
      ensures p.id < |old(Now()).off| && o == old(Now()).off[p.id] + p.left
      ensures FreePages() == old(FreePages()) - Run(o, q.pages) && BatchedPages() == old(BatchedPages())
      ensures UsedPages() == old(UsedPages()) + Run(o, q.pages) && Run(o, q.pages) <= old(FreePages())
      ensures old(HeapOrdered()) ==> HeapOrdered()
      ensures old(Sought(p, q)) ==> P.Take(old(Image()), q) == P.Answer(Some(o), Image())
      ensures old(Begins(p, o)) ==> P.TakeAt(old(Image()), o, q.pages) == P.Answer(Some(o), Image())
    {
      hide Consistent, Ids, Now, Answers, Run, FreePages, BatchedPages, UsedPages, HeapOrdered, HeapOf, CutAs, P.Take;
      hide P.TakeAt, P.Found, HeldAt, P.StartingAt;
      ghost var s, v := Now(), Image();
      InHeap(p.id);
      o := TakePages(p.id, p.left, q.pages);
      if old(Sought(p, q)) { TakeShown(s, Now(), p, q, v, o); }
      if old(Begins(p, o)) { TakeAtShown(s, Now(), p.id, q.pages, v); }
    }

    /** A free block is in the heap. */
    lemma InHeap(id: nat)
      requires Consistent() && id in Ids(Now().tree)
      ensures HeldAt(Now(), id)
    {
      hide Sound, Lodged, Balanced, Ids, From, BatchLayout, Now, Layout, Heaped, HeldAt;
      SoundHeaped(Now(), All(BatchIds()), pub);
      HeapPlace(Now(), id);
    }

    /** Free blocks start at different pages. */
    lemma StartsApart()
      requires Consistent()
      ensures forall i, j ::
        i in Ids(Now().tree) && j in Ids(Now().tree) && i != j && i < |Now().off| && j < |Now().off| ==>
          Now().off[i] != Now().off[j]
    {
      hide Sound, Lodged, Balanced, Ids, From, BatchLayout, Now, Layout;
      BalancedApart(Now(), Batch(), batchPages, batchMin, batchMax, occupied, chunks[..], committed, pub);
      FreeStartApart(Now(), BatchIds(), pub);
    }

    /** The free block that starts at `o` and has at least `n` pages, if there is one. */
    method FreeBlockAt(o: nat, n: nat) returns (r: Option<Spot>)
      requires Consistent() && n > 0
      ensures match r
        case Some(p) =>
          Usable(p, Request(n, 1, 0)) && p.id < |Now().off| && Now().off[p.id] + p.left == o && Begins(p, o)
        case None =>
          && P.TakeAt(Image(), o, n) == P.Answer(None, Image())
          && forall i :: i in Ids(Now().tree) && i < |Now().off| && i < |Now().size| ==>
            Now().off[i] != o || Now().size[i] < n
    {
      hide Sound, Lodged, Balanced, BlocksApart, Ids, Answers, Free, Held, From, BatchLayout, Now, Layout, T.IsNext;
      hide Heaped, HeapOf, P.TakeAt, P.StartingAt;
      ghost var s := Now();
      SoundHeaped(s, All(BatchIds()), pub);
      StartsApart();
      BalancedApart(s, Batch(), batchPages, batchMin, batchMax, occupied, chunks[..], committed, pub);
      var id := TreapNext(o, BatchIds());
      if id != NIL { AtNode(id); }
      if id != NIL && offset[id] == o && size[id] >= n {
        FitAnswers(s, Request(n, 1, 0), Spot(id, 0));
        StartPlace(s, id);
        return Some(Spot(id, 0));
      }
      OnlyNext(s, All(BatchIds()), BatchIds(), pub, o, id, n);
      NothingTaken(s, o, n, Image());
      return None;
    }

    /** A run of free pages that no free page comes before is the beginning of a free block. */
    lemma NoRunAt(o: nat, n: nat)
      requires Consistent() && n > 0 && (o == 0 || o - 1 !in FreePages())
      requires forall i :: i in Ids(Now().tree) && i < |Now().off| && i < |Now().size| ==>
        Now().off[i] != o || Now().size[i] < n
      ensures !(Run(o, n) <= FreePages())
    {
      hide Balanced, Sound, Lodged, From, Layout, BatchLayout, Now, Run, Ids;
      ghost var s := Now();
      BalancedApart(s, Batch(), batchPages, batchMin, batchMax, occupied, chunks[..], committed, pub);
      Subfamily(s.off, s.size, Ids(s.tree) + BatchIds(), Ids(s.tree), pub);
      if Run(o, n) <= Free(s) {
        var i := RunInOneBlock(s.off, s.size, Ids(s.tree), pub, o, n);
        PagesIn(s.off, s.size, Ids(s.tree), i);
        BeforeInRun(s.off[i], s.size[i], o);
      }
    }

    // ---------- what the bookkeeping means ----------

    lemma EnoughPages()
      requires Consistent()
      ensures batchSize <= batchPages && (batchSize == 0 ==> batchPages == 0)
    {
      BatchApart();
      hide Sound, Lodged, Balanced, Ids, From, Layout, BatchLayout, Run;
      BatchFits(Now(), Batch(), batchPages, batchMin, batchMax, occupied, chunks[..], committed, pub);
    }

    /** Each free block is a maximal run of free pages, and every run of free pages lies in one
        of them: the treap and the heap describe exactly the set of free pages. */
    lemma BlocksAreMaximalRuns()
      requires Consistent()
      ensures forall i :: i in Ids(Now().tree) <==> i in Now().h
      ensures forall i :: i in Ids(Now().tree) ==>
        && i < |Now().off| && i < |Now().size| && Now().size[i] > 0
        && Run(Now().off[i], Now().size[i]) <= FreePages()
        && Now().off[i] + Now().size[i] !in FreePages()
        && (Now().off[i] > 0 ==> Now().off[i] - 1 !in FreePages())
      ensures forall o, n | n > 0 && Run(o, n) <= FreePages() ::
        exists i :: i in Ids(Now().tree) && i < |Now().off| && i < |Now().size|
                    && Now().off[i] <= o && o + n <= Now().off[i] + Now().size[i]
    {
      hide Balanced, Sound, Lodged, From, Layout, BatchLayout, Now, Run, Ids;
      ghost var s := Now();
      BalancedApart(s, Batch(), batchPages, batchMin, batchMax, occupied, chunks[..], committed, pub);
      HeapReady(s, All(BatchIds()), pub);
      Subfamily(s.off, s.size, Ids(s.tree) + BatchIds(), Ids(s.tree), pub);
      forall i | i in Ids(s.tree)
        ensures Run(s.off[i], s.size[i]) <= Free(s) && s.off[i] + s.size[i] !in Free(s)
        ensures s.off[i] > 0 ==> s.off[i] - 1 !in Free(s)
      {
        PagesIn(s.off, s.size, Ids(s.tree), i);
        MaximalRun(s.off, s.size, Ids(s.tree), pub, i);
      }
      forall o, n | n > 0 && Run(o, n) <= Free(s)
        ensures exists i ::
          i in Ids(s.tree) && i < |s.off| && i < |s.size| && s.off[i] <= o && o + n <= s.off[i] + s.size[i]
      {
        var i := RunInOneBlock(s.off, s.size, Ids(s.tree), pub, o, n);
      }
    }

    /** Free, batched and used pages are disjoint and together are all the pages; slabs are in used
        ones. */
    lemma PagesApart()
      requires Consistent()
      ensures FreePages() + BatchedPages() + UsedPages() == Run(0, pub) && FreePages() !! BatchedPages()
      ensures UsedPages() !! FreePages() + BatchedPages() && SlabPages() <= UsedPages()
      ensures batchSize == 0 ==> BatchedPages() == {}
    {
      hide Balanced, Sound, From, Layout, Now, Run, Ids, Lodged, LodgedPages, Placed, Free, Held, BlocksApart,
          Coalesced;
      BalancedApart(Now(), Batch(), batchPages, batchMin, batchMax, occupied, chunks[..], committed, pub);
      LodgedUsed(slabs, slabPages, UsedPages(), pub);
      if batchSize == 0 { NothingBatched(Now(), Batch()); }
    }

    /** What the plain blocks say of the pages, the batch and heap order. */
    lemma ImageMeans(o: nat)
      requires Consistent()
      ensures PendingPages(Image().heap) == FreePages() && PendingPages(Image().batch) == BatchedPages()
      ensures |Image().batch| == batchSize && P.Total(Image().batch) == batchPages
      ensures P.InOrder(Image().heap) <==> HeapOrdered()
      ensures batchSize > 0 ==> (P.Straddles(Image().batch, o) <==> batchMin <= o <= batchMax)
    {
      hide Sound, Lodged, Ids, From, Layout, Now, Heaped, BatchLayout, Ordered, P.InOrder, P.Straddles, Extremes, Free;
      hide Held, Ledger, Run, Placed, Pages;
      ghost var s, l := Now(), Batch();
      BatchApart();
      SoundHeaped(s, All(BatchIds()), pub);
      HeapedMembers(s);
      ListedFrom(l);
      BatchStarts(s, l, pub, FreePages() + BatchedPages(), chunks[..], committed);
      Subfamily(s.off, s.size, Ids(s.tree) + From(l, 0), From(l, 0), pub);
      PagesShown(s.off, s.size, s.h, Ids(s.tree));
      PagesShown(s.off, s.size, l, From(l, 0));
      FreeAndHeld(s, From(l, 0));
      TotalShown(s.off, s.size, l, pub);
      P.OrderShown(s.off, s.size, s.h);
      if batchSize > 0 { StraddlesShown(s.off, s.size, l, batchMin, batchMax, o); }
    }

    /** No page is in two slabs. */
    lemma InOneSlab(s: nat, p: nat)
      requires Consistent() && s in slabs && p in Run(slabs[s], slabPages)
      ensures p < pub && forall r :: r in slabs && p in Run(slabs[r], slabPages) ==> r == s
    {
      hide Accounted, UsedPages;
      assert p in UsedPages() && slabs[s] + slabPages <= pub;
    }

    /** Heap positions never overflow 32 bits. */
    lemma HeapPositionsFit()
      requires Consistent()
      ensures 2 * heapSize <= pub + 1 <= NIL
    {
      hide Balanced, Sound, Lodged, From, BatchLayout;
      HeapHalfFull(Now(), Batch(), batchPages, batchMin, batchMax, occupied, chunks[..], committed, pub,
          All(BatchIds()));
    }

    /** No page in use, or waiting in the batch, is ever uncommitted. */
    lemma UsedPagesAreCommitted(p: nat)
      requires Consistent() && p < pub && p !in FreePages()
      ensures p in committed
    {
      hide Sound, Lodged, From, Layout, BatchLayout, Settled, Ledger, Committed, Summed, NoDup, Free, Held;
      UsedIsCommitted(chunks[..], Run(0, pub) - FreePages(), committed, pub, p);
    }
  }
}
