# Verification of bertrand's allocator and bit arithmetic

A Dafny model of two parts of the library:

* `bertrand/allocate.h`: the per-thread virtual address space. An array of nodes carries an intrusive
  max heap ordered by block size, a treap ordered by offset whose priorities are a hash of the offset,
  and a list of free nodes. Freed pages are batched, radix-sorted and merged with their neighbours; a
  ledger of chunks decides which memory is committed. On top of it are slabs of small blocks, and a
  protocol by which other threads free memory through lock-free stacks, during and after the owner's
  teardown.
* `bertrand/bits.h`: fixed-width multi-word arithmetic. Carry and borrow chains, shifts in place,
  rotation, negation, the composite product and the composite two-by-one word division, and printing
  and parsing in power-of-two bases.

`dafny verify dfyconfig.toml` checks everything.

## How the model is laid out

Code that updates fields and arrays in place is modelled as methods over arrays and classes:
`AddressSpaces.AddressSpace` (the pages), `Slabs.SlabPool` (the slabs' stacks and lists),
`LocalSpaces.LocalSpace` (both together, with what other threads have freed) and `BitSets.Bits` are the
source's objects. The source's array of node structs becomes one array per field, with the overlapping heap
array as a further field. Each method is proved against a function or predicate on plain sequences, and what
the source promises is proved about those. The allocator's operations refine functions on plain blocks
(`Plain`, `PlainSpaces`), in which there are no nodes, links, trees, sort buffers or ledgers: the free blocks in
heap order, the batched ones in order of arrival, the slab pool, and what waits to be drained. Sizes that the
source fixes at compile time (pages, batch capacity, sort threshold, slab pages, word width, number of bits,
slab layout) are parameters, so the results hold for all of them.

| layer | modules |
|---|---|
| words and bits | `Bitwise`, `Words`, `WideWords`, `BitSums`, `BitShifts`, `BitRotations`, `BitSets`, `Digits`, `BitText` |
| heap | `MaxHeap` (on sequences), `StaleHeap` (one entry out of date), `HeapOps` (in place, with back-indices) |
| treap | `Priority`, `Treap` (on trees), `TreapLinks` (trees spelled out by links), `TreapOps` (in place) |
| pages | `Blocks`, `Chunks`, `Bisect`, `Addresses`, `RadixSort`, `Pending`, `Sequences` |
| plain blocks | `Plain` (heap, batch, merging), `PlainSpaces` (whole operations), `Pictures` (how nodes show as blocks) |
| the allocator's books | `Allocator` (nodes), `Merging`, `Coalescing` and `Hazards` (merging the batch), `Searching`, `SlabPages` |
| slabs | `SlabLayout` (bytes), `Slabs` (free stacks and partial lists) |
| the allocator | `AddressSpaces`, `LocalSpaces`, `Runs` for whole runs of client operations, and `SlabOrders` for the order in which slabs hand out blocks over a run |
| where it fails | `HazardRuns`, `Witnesses`, `Unmapping` |
| other threads | `RemoteFree` (a step system) |

A thread's space is always described by five disjoint sets of pages: free (in the heap and treap), batched,
freed by another thread but not yet drained, in slabs, and live. `LocalSpace.Valid` ties the arrays to them
and every operation states what it does to them. `Runs` puts whole runs together: a moment is what the client
has and the space as plain blocks, `Runs.Next` computes what one operation answers and makes of the space,
`Runs.Follows` says besides what is to be expected of that, `Runs.Replay` what a client has after a list of
operations and answers, and `Runs.Run` shows that carrying out any operations goes through such moments, at
the end of which the replayed blocks are exactly what is in use. Operations and the nodes of new slabs
determine the whole run (`Runs.TraceDetermined`). What outcomes promise is also told without those functions:
where a grant lies (`Runs.GrantsPlaced`), when growing succeeds (`Runs.Room`), what stays batched
(`Runs.FreesBatched`), which block of a slab comes next (`SlabOrders.HandsOutInOrder`). Every moment follows from the one before, so
whether a merge meets a hazard or a drain empties the batch is a question about the moment before, not about what
the code happened to do.

## Where the code does not do what its comments say

Each of these is stated with the exact condition under which the code does, and with an instance.

1. **Heap order after merging a batch** (`allocate.h:2302-2312`, `2356-2366`). A run merged into the free
   block before it grows while its heap position is out of date, and free blocks to its right are erased
   from the heap around it. The comments expect the last `heap_fix` to restore the heap. It does not
   always: the entry that fills an erased position can be trapped below the grown run although it is
   larger than what stands above the run. `StaleHeap.RemoveStale` proves, for every heap, that one erasure
   keeps the heap mendable if and only if `Hazard` does not hold, which only compares three sizes. For a run
   of one batched block this is a condition on the state before the merge (`Hazards.SandwichHazard`), and the
   heap is in order afterwards exactly without it. For any batch, and any operation, whether an erasure on the
   way is hazardous is computed from the plain blocks before (`Plain.Merged`, `Runs.Risky`).
   `HazardRuns.MergeDisorders` is a client that takes all pages, frees parts of them, and merges three times,
   the last time into a heap out of order. No hazard can occur unless a stretch of batched pages exactly fills
   the gap between two free blocks (`Runs.CalmRiskless`). Without one, every operation keeps the heap in order,
   over whole runs (`Runs.StaysOrdered`). Everything else (page sets, treap, ledger, back-indices) is right in
   either case; a search of a heap that is out of order can only miss a fit, never return a wrong one.
2. **Alignment of a region that does not start aligned** (`allocate.h:2063`). Rounding down can fall before
   the region, and the 64-bit subtraction wraps around. `Bisect.PlaceExact` shows that a block is then
   mistaken for a fit or skipped although it fits, exactly under `Misplaces`, and that the run otherwise lies in
   the middle of the block or at the aligned page next to it; `Bisect.SafeExactly` says for which requests no
   block can be misplaced; `Addresses.SlabMisplaced` is an instance, in bytes.
3. **Refusing a request although pages are free** (`allocate.h:2117-2126`). If draining other threads' frees
   happens to fill the batch exactly, the drain itself merges it and leaves it empty, and `page_allocate`
   then refuses without searching again. `LocalSpace.PageAllocate` shows that this is when the entries that
   join the batch (the waiting pages and the slabs that the waiting slab blocks give up, `PlainSpaces.Entries`),
   added to those it has, are a multiple of its capacity, and that otherwise, with the heap in order, a request
   is refused only if no aligned run of that many idle pages exists anywhere.
   `Witnesses.RefusesThoughIdle` is a run of one allocation, one free and one refusal.
4. **Printing digits that straddle words** (`bits.h:2680-2684`). Whether there is a next word is tested with
   an index that admits one past the last. `BitText.PastEndExactly` shows that some digit is read from past
   the last word if and only if the digits together have more bits than the words; bases 2, 4 and 16 never
   do (`BitText.DividesNeverPast`), base 8 on 8 bits does (`BitText.PastEndHappens`). `BitText.Print` says
   exactly when the text is right all the same, given the word that is read.
5. **Parsing digits that are wider than the number** (`bits.h:2620-2621`). Before a digit is joined it becomes
   a number of the same width, so a digit of at least 2^N, possible when a digit has more than N bits, silently
   loses its high bits and no overflow is reported. `BitText.ReadRight` says for which texts that shows,
   `BitText.AllReadableExactly` that it never does exactly if a digit has at most N bits, and
   `BitText.OversizedDigit` is a text that is read as zero.
6. **Opening a slab over a list** (`allocate.h:2536-2578`). A class without a partial slab gets a new one, but
   other threads' frees are drained on the way, which may put a slab of that class into its list; the new slab
   then takes the place of the list's head. `LocalSpace.SlabAllocate` shows that this is when the class has no
   list and a block of one of its slabs waits to be drained, and that exactly then slabs with free blocks are
   in no list any more (`Slabs.OpenedExactly`). `Witnesses.ForgetsASlab` is a run of two allocations, and
   `Runs.ListedUntilOvertaken` the statement for whole runs. No block is handed out twice in either case. If
   there are no pages for the new slab, the request is refused although the class has a free block by then.
7. **Growing in place** (`allocate.h:2436-2443`). Whether a merge could help is judged by the smallest and
   largest batched offset alone, so an allocation followed by a free block and then by batched pages is not
   grown when the free block is too small, although a merge would make room. `LocalSpace.PageReserve` gives
   the exact condition, whatever waits to be drained: if the drain fills the batch, only what joins it after the
   last merge counts (`Plain.JoinLeaves`). `Witnesses.DoesNotGrow` is an instance.
8. **Unmapping with a call in flight** (`allocate.h:1280-1285`, `2879-2886`, `2912-2927`). The in-flight
   counter is to ensure that nobody is inside when the region is unmapped, but the tests come after the
   decrement. `Unmapping.UnmappedTooSoon` is a run in which a second thread enters in between, frees the last
   block, and is still inside when the first unmaps; `Unmapping.UnmappedAlone` shows that nobody is inside
   exactly if everyone who entered since the tester's decrement has left.

## Model

| member | source | states |
|---|---|---|
| `Priority.PrioInjective` | bertrand/allocate.h:1336-1344 | different 32-bit offsets have different priorities, so treaps need no tie-breaking |
| `Priority.PrioInverse` | bertrand/allocate.h:1336-1344 | the priorities are the 32-bit words in another order: unfolding and multiplying by the inverses of the two multipliers modulo 2^32 gives back the offset of every priority, and every word is one |
| `Priority.RoundInjective` | bertrand/allocate.h:1338-1342 | one fold-and-multiply round loses nothing, for any multiplier with an inverse modulo 2^32 |
| `Bitwise.FoldInjective` | bertrand/allocate.h:1338-1342 | folding a number's high part onto itself loses nothing, at any width and any shift |
| `Treap.SplitCorrect` | bertrand/allocate.h:1713-1756 | both halves are treaps, and the offsets in them lie below and above the key |
| `Treap.InsertCorrect` | bertrand/allocate.h:1762-1808 | inserting a block at a new offset gives a treap again |
| `Treap.EraseCorrect` | bertrand/allocate.h:1815-1882 | erasing a member leaves a treap without it and with every other member |
| `Treap.ShapeUnique` | bertrand/allocate.h:1336-1344 | two treaps over the same nodes are the same tree: the shape depends only on the set of offsets |
| `Treap.InsertionOrderIrrelevant` | bertrand/allocate.h:1762-1808 | any two orders of inserting the same nodes build the same tree |
| `Treap.EraseUndoesInsert` | bertrand/allocate.h:1815-1882 | erasing a node just inserted gives back the identical tree |
| `TreapOps.Split` | bertrand/allocate.h:1713-1756 | the loop over links leaves two linked trees, exactly the two halves of the split, and touches no other node |
| `TreapOps.Insert` | bertrand/allocate.h:1762-1808 | the walk, the split and the relinking leave exactly the tree `Treap.Insert`, and touch no node outside it |
| `TreapOps.Erase` | bertrand/allocate.h:1815-1882 | the rotations and the final splice leave exactly the tree `Treap.Erase`, and touch no node outside it |
| `TreapOps.Prev` | bertrand/allocate.h:1885-1897 | finds the member with the greatest offset below the key, or NIL when there is none |
| `TreapOps.Next` | bertrand/allocate.h:1901-1913 | finds the member with the least offset at or above the key, or NIL when there is none |
| `MaxHeap.FixOrders` | bertrand/allocate.h:1661-1668 | mending the one entry whose size changed arbitrarily restores heap order |
| `MaxHeap.PushOrders` | bertrand/allocate.h:1631-1639 | pushing keeps heap order |
| `MaxHeap.RemoveOrders` | bertrand/allocate.h:1643-1657 | filling the gap with the last entry and mending it keeps heap order |
| `MaxHeap.Remove` | bertrand/allocate.h:1643-1657 | neither loses nor repeats an entry |
| `HeapOps.HeapifyDown` | bertrand/allocate.h:1594-1612 | in place, equals `MaxHeap.SiftDown`; every entry's back-index stays right and no other node's changes |
| `HeapOps.HeapifyUp` | bertrand/allocate.h:1616-1627 | in place, equals `MaxHeap.SiftUp`; every entry's back-index stays right and no other node's changes |
| `HeapOps.Insert` | bertrand/allocate.h:1631-1639 | in place, equals `MaxHeap.Push`, with all back-indices right |
| `HeapOps.Erase` | bertrand/allocate.h:1643-1657 | erases the entry its back-index names; in place, equals `MaxHeap.Remove`, with all back-indices right |
| `HeapOps.Fix` | bertrand/allocate.h:1661-1668 | mends the entry its back-index names; in place, equals `MaxHeap.Fix`, with all back-indices right |
| `StaleHeap.SinkStale` | bertrand/allocate.h:1594-1612 | sifting down around an entry with an outdated position leaves every other entry at most its parent |
| `StaleHeap.ClimbStale` | bertrand/allocate.h:1616-1627 | sifting up past such an entry does so too, and leaves it mendable if and only if the climbing entry is not caught below it |
| `StaleHeap.RemoveStale` | bertrand/allocate.h:1643-1668 | erasing another entry keeps the heap in order but for the outdated one, and the final fix restores full heap order, if and only if there is no `Hazard` |
| `StaleHeap.HazardHappens` | bertrand/allocate.h:2303-2312 | a heap in order, one block grown, one erased: the final fix leaves it out of order |
| `HazardRuns.GroupMerges` | bertrand/allocate.h:2320-2374 | free blocks that touch nothing and are freed in the order of their pages are pushed on the heap one after the other by a merge |
| `HazardRuns.LastHazard` | bertrand/allocate.h:2303-2312 | with twelve such blocks in the heap, merging the one between blocks 3 and 7 meets the hazard |
| `HazardRuns.MergeDisorders` | bertrand/allocate.h:2320-2374 | a client takes all pages of a new space and frees parts of them with three merges: the last one leaves the heap, which was in order, out of order |
| `Allocator.DistinctBelow` | bertrand/allocate.h:1921-1949 | distinct node numbers below n are at most n |
| `Allocator.Inserted` | bertrand/allocate.h:2361-2363 | a held block that enters the treap and the heap: both hold the same nodes again, every other node is accounted for |
| `Allocator.Erased` | bertrand/allocate.h:2175-2177 | a block that leaves the heap and the treap: both hold the same nodes again, every other node is accounted for |
| `AddressSpaces.AddressSpace.GetNode` | bertrand/allocate.h:1921-1942 | gives out a node that is in neither structure, from the free list or the next unused one, which is below the page count |
| `AddressSpaces.AddressSpace.PutNode` | bertrand/allocate.h:1946-1949 | a held node joins the free list; nothing else changes |
| `Allocator.RoomFor` | bertrand/allocate.h:1921-1942 | as long as a page is outside all blocks there is a node left, since every block holds a page of its own |
| `Chunks.Increment` | bertrand/allocate.h:1953-1970 | the loop over chunks counts the added pages in every chunk they touch |
| `Chunks.Decrement` | bertrand/allocate.h:1974-1991 | the loop over chunks takes the pages off every chunk they touch |
| `Chunks.CounterFits` | bertrand/allocate.h:1953-1970 | a chunk's count never exceeds 255, so it fits a byte |
| `Chunks.IntervalExact` | bertrand/allocate.h:1995-2006 | the interval has every page of a touched chunk whose count is zero; a counted chunk is included only when the block reaches beyond both its ends |
| `Chunks.CommitKeeps` | bertrand/allocate.h:2012-2020 | committing the interval and counting the pages keeps "committed exactly where the count is not zero" |
| `Chunks.DecommitKeeps` | bertrand/allocate.h:2026-2034 | decommitting the interval of a merged block restores it after the pages have been uncounted |
| `Chunks.UsedIsCommitted` | bertrand/allocate.h:1953-2034 | a counted page is committed |
| `Bisect.PlaceExact` | bertrand/allocate.h:2054-2072 | the run is placed in the middle of the block, an odd page left after it, or with an alignment at the last aligned page that leaves no more before the run than after it, and if the block has no such page at its first aligned page; or refused because the block has no aligned run; all if and only if the block is not one that rounding down before the region makes the code mistake for a fit or skip, and then it is one or the other |
| `Bisect.CentredUnique` | bertrand/allocate.h:2058-2088 | a block has only one such place |
| `Bisect.SafeExactly` | bertrand/allocate.h:2063 | for which requests no block of the region can be misplaced: alignment of at most a page, an aligned region, or a region too small for the wrap-around to matter |
| `Bisect.MisplacementHappens` | bertrand/allocate.h:2063 | a slab requested from a region starting 10 pages past an aligned address is placed outside it though another place fits |
| `Bisect.BisectExhaustive` | bertrand/allocate.h:2045-2092 | the pruned search of an ordered heap finds a largest block among all that can hold an aligned run, and that place in it, and nothing if and only if no block can |
| `Bisect.FoundFits` | bertrand/allocate.h:2045-2092 | in any heap, ordered or not, what is found is an aligned run at that place in its block |
| `Addresses.AddressAligned` | bertrand/allocate.h:2110-2115 | alignment counted in pages from the region's start is alignment of the address in bytes, for all powers of two, also below a page; the length is passed on |
| `Addresses.RequestLegal` | bertrand/allocate.h:2110-2115 | what is passed to the search meets its precondition for every power-of-two alignment of 64 bits |
| `Addresses.SlabMisplaced` | bertrand/allocate.h:2110-2115 | the misplaced request is what a slab allocation passes down, in bytes, for any region that starts 10 pages past a multiple of the slab size |
| `Searching.SpotBelongs` | bertrand/allocate.h:2045-2116 | with no free blocks touching, what is found lies at that place in a maximal run of free pages, and with the heap in order in a longest one that can hold it |
| `Searching.NothingAnswers` | bertrand/allocate.h:2110-2116 | with the heap in order and no free blocks touching, nothing is found only if no run of free pages answers the request |
| `RadixSort.BeforeIsLess` | bertrand/allocate.h:2226-2280 | comparing four 8-bit digits is comparing 32-bit offsets |
| `RadixSort.BinnedSorted` | bertrand/allocate.h:2249-2279 | a stable pass over ids sorted by their low digits sorts them by one digit more |
| `RadixSort.BinnedPermutes` | bertrand/allocate.h:2249-2279 | a pass neither loses nor repeats an id |
| `RadixSort.Scatter` | bertrand/allocate.h:2249-2279 | one scatter loop leaves the ids binned by digit d and, fused into it, the counts of digit d + 1 |
| `RadixSort.InsertionSort` | bertrand/allocate.h:2191-2204 | sorts by offset and permutes, in place |
| `RadixSort.Sort` | bertrand/allocate.h:2226-2280 | sorts by the full offset, permutes, and leaves the result in the buffer it came in after four swaps |
| `RadixSort.SortedUnique` | bertrand/allocate.h:2229-2232 | with distinct offsets there is one sorted order: radix sort and insertion sort agree |
| `Blocks.MergeBlocks` | bertrand/allocate.h:2334-2340 | a block and its right neighbour become one block with both their pages |
| `Blocks.RunInOneBlock` | bertrand/allocate.h:2045-2092 | when no two blocks touch, any run of their pages lies in a single block |
| `Blocks.HalfAsMany` | bertrand/allocate.h:1594-1612 | blocks that do not touch number at most half the pages, rounded up |
| `Coalescing.NoNewGap` | bertrand/allocate.h:2320-2374 | a finished run creates no gap for the rest of the batch to fill exactly |
| `Coalescing.BatchFits` | bertrand/allocate.h:2387-2404 | the batch list has at most as many entries as the batch has pages |
| `Plain.RemoveShown` | bertrand/allocate.h:1643-1657 | erasing from the heap of nodes is erasing from the sequence of their blocks: the result does not depend on which nodes hold the blocks |
| `Plain.BisectShown` | bertrand/allocate.h:2045-2092 | the search finds the same block and the same place in it whatever nodes hold the blocks |
| `Plain.JoinMore` | bertrand/allocate.h:2789-2823 | blocks that join the batch, merged whenever it is full, may join it in two parts |
| `Plain.RisingUnique` | bertrand/allocate.h:2229-2232 | blocks have one order by offset |
| `Pictures.SortShown` | bertrand/allocate.h:2226-2280 | the sorted batch list shows the batched blocks in that order |
| `Pictures.FreeStepShown` | bertrand/allocate.h:2303-2312 | a run that absorbs a free block does what one step on plain blocks does, and meets a hazard exactly when that one does |
| `AddressSpaces.AddressSpace.StartRun` | bertrand/allocate.h:2327-2341 | the first block of a run is uncounted and joins the free block that ends where it starts, or begins a block of its own, as `Plain.Start` says |
| `AddressSpaces.AddressSpace.Cascade` | bertrand/allocate.h:2286-2316 | extends the run by the next batched block or else by a free one that starts where it ends, and says when neither does, as `Plain.Step` says; the heap stays mendable around the run if and only if no hazard occurs |
| `Hazards.StartedBeside` | bertrand/allocate.h:2334-2340 | a run that began beside a free block has a hazard ahead if and only if its block lay between two free ones so to begin with |
| `AddressSpaces.AddressSpace.CoalesceRun` | bertrand/allocate.h:2323-2367 | one complete run: the block is maximal, decommitted, and free; heap, rest of the batch and hazard are those of a run on plain blocks (`Pictures.RunShown`), a function of the state before; without a hazard the heap stays in order, for one a gap must be filled, and for a run of one batched block order is lost exactly with one |
| `AddressSpaces.AddressSpace.Coalesce` | bertrand/allocate.h:2320-2374 | the batch is empty afterwards, its pages are free, no two free blocks touch, no other page changes; the heap and the hazard are exactly those of `Plain.Merged` of the blocks before; without a hazard the heap stays in order, and with one block in the batch exactly then |
| `AddressSpaces.AddressSpace.ImageMeans` | bertrand/allocate.h:2320-2445 | what the plain blocks show: the free and the batched pages, the batch's size and pages, heap order, and whether an offset lies between the least and the greatest batched one |
| `AddressSpaces.AddressSpace.BlocksAreMaximalRuns` | bertrand/allocate.h:2320-2374 | heap and treap hold the same nodes; each free block is a maximal run of free pages, and every run of free pages lies in one of them |
| `AddressSpaces.AddressSpace.HeapPositionsFit` | bertrand/allocate.h:1594-1612 | the heap holds at most half as many blocks as there are pages, so 32-bit positions cannot overflow |
| `AddressSpaces.AddressSpace.constructor` | bertrand/allocate.h:1546-1556 | the whole partition is one free block, nothing is live, and all invariants hold |
| `AddressSpaces.AddressSpace.PageDeallocate` | bertrand/allocate.h:2387-2404 | used pages become batched pages, within the batch's capacity; the free pages are the same |
| `AddressSpaces.AddressSpace.TakePages` | bertrand/allocate.h:2133-2186 | the run leaves the free pages, wherever in its block it lies, and the heap is cut as `Plain.Cut` says; the ledger, the committed memory and the node structures follow; heap order is kept |
| `AddressSpaces.AddressSpace.TrackSlab` | bertrand/allocate.h:2556-2562 | a node is left for a slab in used pages, from the same free list and array as the blocks' nodes |
| `AddressSpaces.AddressSpace.GiveUp` | bertrand/allocate.h:2669-2683 | the slab's pages become batched pages and its node joins the free list; a node is left for the batched block |
| `LocalSpaces.LocalSpace.PageAllocate` | bertrand/allocate.h:2099-2187 | terminates; grant or refusal, heap, batch, pool, drained entries and hazard are exactly those of `PlainSpaces.Allocated` of the state before; a result is an aligned run of pages that were neither live nor in a slab that remains, in the middle of a maximal run of free pages or at the aligned page next to it, without a hazard a longest one; what free pages can answer is answered from them; a refusal leaves the live pages alone and, with the heap in order at first and no hazardous erasure on the way, means that no such run exists, unless draining what waits fills the batch exactly; if it does and nothing free answers, the request is refused |
| `LocalSpaces.LocalSpace.Retry` | bertrand/allocate.h:2116-2121 | draining, merging and searching again, exactly as `PlainSpaces.Retried` says; refuses at once when the drain leaves the batch empty; with nothing waiting and one block in the batch, the hazard is that block's |
| `LocalSpaces.LocalSpace.PageReserve` | bertrand/allocate.h:2412-2445 | grows by nothing or by exactly the pages asked for, none of which was live, exactly when `PlainSpaces.Reserved` of the state before says; whatever waits, that is if and only if the pages are free, or are free, batched or waiting to be drained and the page asked for lies between the least and the greatest offset of what the drain leaves in the batch |
| `Plain.JoinLeaves` | bertrand/allocate.h:2789-2823 | what a drain leaves in the batch: everything when it does not fill it, and otherwise the last blocks to join, after as many full batches as there are |
| `LocalSpaces.LocalSpace.FreePagesElsewhere` | bertrand/allocate.h:2741-2765 | pages freed by another thread are no longer live, and nothing else moves until the owner drains them |
| `LocalSpaces.LocalSpace.FreeBlockElsewhere` | bertrand/allocate.h:2696-2722 | a slab block freed by another thread is no longer live, and nothing else moves until the owner drains it |
| `LocalSpaces.LocalSpace.SlabDeallocate` | bertrand/allocate.h:2611-2685 | the block goes back to its slab; a slab is given up exactly if `Slabs.Reclaimable` says so, and then has its pages batched and its node returned; no other page changes |
| `LocalSpaces.LocalSpace.DrainSlabs` | bertrand/allocate.h:2789-2800 | gives back every waiting slab block in turn, batches the slabs given up, which `Slabs.AllReturned` of the state before names, and merges whenever the batch is full; which classes have a list afterwards |
| `LocalSpaces.LocalSpace.DrainRemote` | bertrand/allocate.h:2789-2823 | takes back every waiting slab block and then every waiting page, merging whenever the batch is full, so no write to the batch list is out of bounds; what clients hold is unchanged; heap, batch, pool, number of entries and hazard are those of `PlainSpaces.Drained` of the state before |
| `LocalSpaces.LocalSpace.Deallocate` | bertrand/allocate.h:2993-3010 | frees an allocation or a part of one: drains, batches and merges a large batch, exactly as `PlainSpaces.Deallocated` says; the pages are no longer live, nothing waits, and the batch is below its threshold; the heap stays in order unless an erasure was hazardous |
| `LocalSpaces.LocalSpace.DeallocateBlock` | bertrand/allocate.h:2986-3010 | the same for a slab block, as `PlainSpaces.BlockDeallocated` says, which also names the slabs that are given up |
| `LocalSpaces.LocalSpace.SlabAllocate` | bertrand/allocate.h:2533-2603 | hands out a block of the class that no one has, or refuses, exactly as `PlainSpaces.SlabAllocated` says; at most one slab is new, and none if the class has a list; blocks in use stay where they are; a new slab lies where `PageAllocate` puts it and hands out block 0, another slab the block that is due; every slab with a free block is in its list afterwards if and only if the drain on the way did not give the class a list that the new slab displaced; a refusal, without a hazard, means that no aligned run for a slab exists, and the class has a free block then exactly if the drain gave it a list |
| `LocalSpaces.LocalSpace.BlockInSlab` | bertrand/allocate.h:2533-2603 | a block in use belongs to a slab at an aligned address, whose pages are committed and used by nothing else |
| `LocalSpaces.LocalSpace.PagesPartition` | bertrand/allocate.h:2099-2445 | free, batched, waiting, live and slab pages are disjoint and together are the whole partition |
| `LocalSpaces.LocalSpace.constructor` | bertrand/allocate.h:1546-1556 | the whole partition is free, nothing is in use or waiting, and all invariants hold |
| `AddressSpaces.AddressSpace.UsedPagesAreCommitted` | bertrand/allocate.h:2012-2034 | no page that is live, pending or batched is ever uncommitted |
| `AddressSpaces.AddressSpace.EnoughPages` | bertrand/allocate.h:3005-3008 | the batch list never has more entries than the batch has pages |
| `Witnesses.RefusesThoughIdle` | bertrand/allocate.h:2116-2126 | a region of one page: allocated, freed by another thread, and then refused although idle |
| `Witnesses.DoesNotGrow` | bertrand/allocate.h:2436-2443 | three pages of which the second is free and the third batched: growing the first by both is refused |
| `Witnesses.ForgetsASlab` | bertrand/allocate.h:2536-2578 | a space whose only slab has its one block allocated and freed by another thread: the next allocation of the class drains it, opens a new slab all the same, and leaves the first one in no list |
| `Runs.Run` | bertrand/allocate.h:2943-3063 | every sequence of allocations, growths, frees of whole blocks and parts, slab block allocations and frees, from this or another thread, and merges is a run of an abstract allocator of plain blocks, step by step: outcome and next state are those that `Next` computes, each outcome changes the client's blocks as `After` says and is one that `Follows` allows, and at the end those blocks are exactly what is in use |
| `Runs.TraceReplays` | bertrand/allocate.h:2943-3063 | at every moment of a run the client's blocks are those that replaying the operations with their outcomes gives |
| `Runs.TraceDetermined` | bertrand/allocate.h:2943-3063 | the operations and the nodes that new slabs get determine every outcome and every moment of a run |
| `Runs.StaysOrdered` | bertrand/allocate.h:2320-2374 | the heap is in order at every moment of a run up to the first operation that meets a hazard, which is a condition on the moment before it |
| `Runs.CalmRiskless` | bertrand/allocate.h:2320-2374 | a run in which no operation merges a stretch that exactly fills a gap meets no hazard, and keeps the heap in order |
| `Runs.RefusalsJustified` | bertrand/allocate.h:2116-2126 | over every run in which no operation meets a hazard, a refusal means that no aligned run of the size lies outside the client's blocks and the slabs, unless draining what waited filled the batch exactly, a condition on the moment before |
| `Runs.GrantsApart` | bertrand/allocate.h:2943-3063 | what a run grants is aligned and meets no block that the client has at the time; a slab block handed out is none of them |
| `Runs.GrantsPlaced` | bertrand/allocate.h:2045-2116 | whatever a run grants lies in the middle of a maximal run of free pages or at the aligned page next to it, and up to the first hazard that is a longest one that can hold it |
| `Runs.RoomUnfilled` | bertrand/allocate.h:2412-2445 | there is room to grow, when what waits does not fill the batch, if and only if the pages are free, or the batch with what waits straddles the end and the pages are free, batched or waiting |
| `Runs.FreesBatched` | bertrand/allocate.h:2993-3010 | what a free by the owner leaves in the batch, whatever waited: what the drain leaves and the pages freed, or nothing once those are as many pages as the batch can have entries, and then all pages that no client holds and no slab occupies are free |
| `SlabOrders.HandsOutInOrder` | bertrand/allocate.h:2492-2603 | over every run, told from operations and outcomes alone: a new slab hands out its block 0, and after that every block handed out of a slab is the one given back last of those given back since it was opened and free again, and if there are none the least never handed out |
| `Runs.ListedUntilOvertaken` | bertrand/allocate.h:2533-2603 | every slab with a free block is in its list up to the first allocation that displaces a list, and not after that one |
| `Runs.AccountedPartition` | bertrand/allocate.h:2943-3063 | those blocks, with the free, batched and waiting pages and the slabs, make up the partition; they are disjoint, and committed |
| `SlabLayout.NothingOverlaps` | bertrand/allocate.h:1175-1229 | blocks of a slab overlap neither each other, nor the free stack, nor the trailing node id, for every size class |
| `SlabLayout.Fit` | bertrand/allocate.h:1216-1229 | a slab has as many blocks as fit with an entry of the free stack each: one more of both would not |
| `SlabLayout.LookupInverts` | bertrand/allocate.h:2485-2528 | the slab and the block of any address inside a block are found again by masking and dividing |
| `SlabLayout.ClassesAscend` | bertrand/allocate.h:1189-1229 | every size class is a multiple of the pointer size and larger than the one before |
| `SlabLayout.NextClassGrows` | bertrand/allocate.h:1216-1225 | the next class is the least multiple of the pointer size that is at least a quarter more |
| `SlabLayout.TableAscends` | bertrand/allocate.h:1189-1229 | the table of size classes rises strictly, which the binary search relies on |
| `SlabLayout.SlabClass` | bertrand/allocate.h:2455-2481 | the binary search and the alignment scan find the first class that is large enough and aligned, or say there is none |
| `Slabs.StackSize` | bertrand/allocate.h:2492-2510 | blocks on the free stack and blocks handed out add up to all the slab has |
| `Slabs.UnlinkLinks` | bertrand/allocate.h:2585-2593 | taking a member out of one class's list leaves all lists mutually linked, with no link to it |
| `Slabs.PrependLinks` | bertrand/allocate.h:2652-2657 | putting a slab in front of one class's list leaves all lists mutually linked |
| `Slabs.SlabAccounts` | bertrand/allocate.h:2533-2603 | a slab is in its class's list if and only if it has a block that is not handed out |
| `Slabs.SlabPool.constructor` | bertrand/allocate.h:1546 | no slabs, empty lists |
| `Slabs.OpenedExactly` | bertrand/allocate.h:2551-2578 | putting a new slab at the head of a class's list keeps every slab with a free block in a list if and only if the class had no list, however the lists are read |
| `Slabs.SlabPool.Open` | bertrand/allocate.h:2551-2578 | a new slab heads its class's list, and none of its blocks has been handed out: the least is due first; nothing is handed out twice even when a list is displaced |
| `Slabs.PoppedOrder` | bertrand/allocate.h:2503-2509 | the block on top of a slab's stack is the one that is due: the last given back, or the least never handed out |
| `Slabs.SlabPool.Take` | bertrand/allocate.h:2581-2602 | hands out the block that is due from the first slab, which was not handed out before; a slab left without free blocks leaves the list |
| `Slabs.GivenUpSturdy` | bertrand/allocate.h:2658-2683 | giving up a slab keeps all links mutual and all heads valid, in any list |
| `Slabs.SlabPool.Deallocate` | bertrand/allocate.h:2611-2685 | the block is free again and due next from its slab, a full slab returns to its list; a slab is given up if and only if it had another free block, nothing in it is in use any more, and it stands next to another in its list, which, with every slab listed, is when its class has another slab with a free block |
| `RemoteFree.StepKeeps` | bertrand/allocate.h:2696-2823 | every atomic step of the owner and of any number of calls keeps the invariant |
| `RemoteFree.ChargedAtMostOnce` | bertrand/allocate.h:2696-2823 | over every run each block is charged to `occupied` at most once, and `occupied` is the sum of what is not yet charged |
| `RemoteFree.OnlyOwnerCharges` | bertrand/allocate.h:2696-2823 | while the owner lives, calls from other threads charge no block and take none off a stack: `occupied` falls only by the owner's own steps, and the stacks only by its drains |
| `RemoteFree.FreesReachOwner` | bertrand/allocate.h:2696-2823 | while the owner lives, every call that is over has pushed its block, which is on the stack of its kind, among those the owner has taken off, or was charged by the owner |
| `RemoteFree.LateFreesKeepOff` | bertrand/allocate.h:2696-2823 | a call that begins after the owner has gone never touches the stacks and has charged its own block, once, by the time it leaves |
| `RemoteFree.NothingLeftBehind` | bertrand/allocate.h:3071-3081 | after the teardown's drain, with no call in flight, both stacks are empty and every freed block has been charged exactly once |
| `RemoteFree.UnmappedIsEmpty` | bertrand/allocate.h:2912-2927 | when the unmap test has passed, nothing is live, pending, or held by any thread |
| `Unmapping.UnmappedAlone` | bertrand/allocate.h:2912-2927 | when a call's test unmaps the region, nobody is inside a call if and only if everyone who entered since that call left has left too |
| `Unmapping.OwnerUnmapsAlone` | bertrand/allocate.h:2912-2927 | the same when the owner's test unmaps the region |
| `Unmapping.UnmappedTooSoon` | bertrand/allocate.h:2912-2927 | a run in which the region is unmapped with a call in flight that has yet to leave |
| `RemoteFree.NotForgotten` | bertrand/allocate.h:2912-2927 | if the owner is gone, every block has been charged and the last test is over, the region has been unmapped |
| `WideWords.MulExact` | bertrand/bits.h:461-486 | the composite product of two words is their full product: no intermediate sum loses a carry |
| `WideWords.DigitExact` | bertrand/bits.h:525-553 | each half-word estimate of the quotient exceeds it by at most two and the correction finds it, with no intermediate result wrapping around |
| `WideWords.DivModExact` | bertrand/bits.h:490-563 | for every high word below the divisor, q v + r is the dividend and r < v |
| `WideWords.DivModOverflow` | bertrand/bits.h:493-500 | the largest word is reported exactly when the quotient does not fit a word |
| `WideWords.DivideByWord` | bertrand/bits.h:5321-5328 | dividing word by word from the top, remainder carried along, divides the whole number |
| `BitSums.AddWords` | bertrand/bits.h:5071-5080 | the carry chain: words written and carry sum to the operands, even when the output is one of them |
| `BitSums.SubWords` | bertrand/bits.h:5118-5126 | the borrow chain: words written and subtrahend sum to the minuend and the borrow, even when the output is one of them |
| `BitSets.Bits.Add` | bertrand/bits.h:5052-5086 | the sum modulo 2^N, and overflow if and only if it is not below 2^N, for every N, on either machine, and for any aliasing of the three operands |
| `BitSets.Bits.Sub` | bertrand/bits.h:5105-5125 | the difference modulo 2^N, and overflow if and only if it is negative, for every N and any aliasing |
| `BitShifts.ShiftUp` | bertrand/bits.h:5564-5582 | overwriting the buffer from the top leaves every word as computed from the words before |
| `BitShifts.ShiftDown` | bertrand/bits.h:5640-5660 | overwriting the buffer from the bottom leaves every word as computed from the words before |
| `BitShifts.ShiftLeftValue` | bertrand/bits.h:5556-5597 | those words are the number times the power of two, modulo what the words hold |
| `BitShifts.ShiftRightValue` | bertrand/bits.h:5632-5672 | those words are the quotient by the power of two |
| `BitSets.Bits.ShiftLeft` | bertrand/bits.h:5556-5597 | the number times 2^k modulo 2^N, for every k |
| `BitSets.Bits.ShiftRight` | bertrand/bits.h:5632-5672 | the number divided by 2^k, for every k |
| `BitSets.Bits.Rotate` | bertrand/bits.h:5003-5018 | the low bits move to the top and the rest down, for every distance of either sign |
| `BitRotations.RotatedBit` | bertrand/bits.h:5000-5018 | rotating by n moves bit (i + n) mod N to bit i |
| `BitRotations.RotationsAdd` | bertrand/bits.h:5000-5018 | rotations compose by adding their distances |
| `BitRotations.RotationUndone` | bertrand/bits.h:5000-5018 | rotating by -n undoes rotating by n |
| `BitSets.Bits.Flip` | bertrand/bits.h:4945-4953 | every bit inverted: 2^N - 1 minus the number |
| `BitSets.Bits.Increment` | bertrand/bits.h:5680-5693 | one more modulo 2^N |
| `BitSets.Bits.Negate` | bertrand/bits.h:5023-5027 | the two's complement: 2^N minus the number, modulo 2^N |
| `BitText.LastOne` | bertrand/bits.h:2858-2868 | the length of the number in bits, from the first nonzero word from the top |
| `BitText.WouldOverflow` | bertrand/bits.h:2594-2614 | the distance of the top bit says exactly whether shifting by a digit would lose bits |
| `BitText.MsbSet` | bertrand/bits.h:2761-2767 | whether doubling would overflow |
| `BitText.AppendDigit` | bertrand/bits.h:2615-2621 | shifting up and joining a digit gives the number times the base plus the digit's low N bits |
| `BitText.DigitsAreSmall` | bertrand/bits.h:2620-2621 | no digit is too large for the width when the base is not, nor in any text whose value fits |
| `BitText.Parse` | bertrand/bits.h:4416-4496 | stops at the first symbol that is no digit or the first digit before which shifting would lose bits; a text of digits is read right, as its value or an overflow, if and only if it is readable |
| `BitText.ReadRight` | bertrand/bits.h:2620-2621 | reading gives a text's value, or an overflow if that is too large, if and only if no digit is too large by itself or one before the last has a low part |
| `BitText.AllReadableExactly` | bertrand/bits.h:2620-2621 | every text of digits is readable if and only if a digit has no more bits than the number |
| `BitText.OversizedDigit` | bertrand/bits.h:2620-2621 | the one digit 2^N is otherwise read as zero |
| `BitText.ExtractDigit` | bertrand/bits.h:2667-2690 | the digit of the number with whatever word lies past the buffer above it, joined from two words where it straddles them |
| `BitText.PastEndExactly` | bertrand/bits.h:2680-2684 | some digit is read from past the last word if and only if the digits have more bits than the words |
| `BitText.PastEndHappens` | bertrand/bits.h:2680-2684 | in base 8 the third digit of an 8-bit number is, and 128 is printed wrong if the word found there is odd |
| `BitText.DividesNeverPast` | bertrand/bits.h:2680-2684 | digits whose width divides the word's never read past the last word |
| `BitText.PrintableWithin` | bertrand/bits.h:2680-2684 | where no digit runs past the last word, every number is printed right |
| `BitText.Print` | bertrand/bits.h:2698-2734 | as many digits as the highest bit needs and one for zero; they are those of the number, without leading zeros, if and only if they have no more bits than the words or the rest is zero in what lies past the buffer |
| `BitText.RoundTrip` | bertrand/bits.h:4661-4673 | parsing what was printed gives the same number if and only if that is so, and an overflow otherwise, at every width, word size and base |

Two readings that the rows above use: a method whose row says it "equals" a function changes its arrays to
that function of the old contents; "every run" in `RemoteFree` and `Unmapping` quantifies over all finite
sequences of enabled atomic steps, which are taken as sequentially consistent.

## Left out

- AddressSpaces.AddressSpace.Coalesce: for a batch of several blocks the heap is in order afterwards if no erasure was hazardous, but not only if: a hazard in one run of the batch can be repaired by a later one. Heap and hazard are exact in any case, as functions of the blocks before (`Plain.Merged`); order is lost exactly with a hazard for each erasure (`Cascade`, `StaleHeap.RemoveStale`) and for a batch of one block.
- LocalSpaces.LocalSpace.PageAllocate: requires that no block can be misplaced (`Safe`); requests that are not safe are covered block by block by `Bisect.PlaceExact`. The same holds of the slabs' own requests in `LocalSpaces.LocalSpace.SlabAllocate` and `Runs.Run`.
- LocalSpaces.LocalSpace.PageReserve: the condition for growing is for an offset at which an allocation ends, or no idle block does, as the source asks of its callers.
- LocalSpaces.LocalSpace.DrainRemote: frees that arrive while an operation runs wait for the next drain; in the source a drain later in the same operation may take them.
- Slabs.SlabPool.Deallocate: which slabs the lists hold is stated as long as every slab with a free block is listed; once a list has been displaced, only that links stay mutual, heads valid, and nothing is handed out twice (`Sturdy`).
- RemoteFree.UnmappedIsEmpty: says that nothing is left when the region is unmapped, not that it is unmapped only once; nothing is specified of a call that goes on after the unmapping.
- BitSets.Bits.Rotate: the two out-of-place shifts of the source are a copy followed by the shift in place.
- BitText.Parse: text is a sequence of digit values and non-digits; looking up digit strings of different lengths in the hash table is not modelled, and only power-of-two bases are.
- BitText.Print: the word past the buffer is an arbitrary parameter; in the source reading it is undefined.
- A slab's node is taken from the page allocator's array and free list, but the fields that the slab lists use (links, free count, class) are separate arrays here.
- `occupied` counts used pages, with those of slabs; the source leaves empty slab space out and counts slab blocks by their size.
- The in-slab free stack is a sequence per slab; where its entries lie in memory is `SlabLayout`.
- Committing memory follows the chunked variant that the ledger serves (Windows); the other variant decommits each whole merged block and keeps no ledger. Operating system calls are updates of a ghost set and never fail.
- Relaxed, acquire and release orderings: every atomic action of `RemoteFree` is one step of a single interleaving, and a drained request is charged as a whole.
- Debug validators, page-size checks, and exceptions other than refusing a request.
- The `total` counter, which subtracts a merged block with its already free pages (line 2358), and `Space::truncate`.
- Requests of zero pages, reserving zero pages, and numbers of zero bits.
- Layout of the private partition: the arrays that it holds are separate arrays here, and node storage is not committed step by step.
- Multi-word `divmod` and `_mul`, the signed and floating-point types, bitwise logic, hashing, iterators, formatting, and bases that are not powers of two.
- Out-of-place shifts by the width or more.
