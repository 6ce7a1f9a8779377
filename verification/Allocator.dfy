/** The allocator's bookkeeping as a value, and what each step keeps of it. */
module Allocator {
  import opened Options
  import opened Priority
  import opened Treap
  import opened TreapLinks
  import opened MaxHeap
  import H = HeapOps
  import opened Blocks

  /** One array of nodes backs every structure: each sequence holds one field of all nodes.
      `h` is the part of the overlapping heap array in use, `root` and `head` are the treap's
      and the free list's first nodes, and `next` is the first node never used. */
  datatype State = State(off: seq<nat>, size: seq<nat>, left: seq<nat>, right: seq<nat>, heap: seq<nat>,
                         h: seq<nat>, root: nat, head: nat, next: nat, tree: Tree, free: seq<nat>)

  ghost predicate Shaped(s: State, pub: nat)
  {
    && |s.off| == |s.size| == |s.left| == |s.right| == |s.heap| == pub <= NIL
    && |s.h| <= pub
  }

  /** Every node used so far is in the treap, held for a block outside it, or free. */
  ghost predicate Split(t: set<nat>, held: set<nat>, free: seq<nat>, next: nat, pub: nat)
  {
    && t !! held && next <= pub
    && (forall k :: 0 <= k < |free| ==> free[k] !in t && free[k] !in held)
    && (forall k, m :: 0 <= k < m < |free| ==> free[k] != free[m])
    && (forall i: nat :: i in t || i in held || i in free <==> i < next)
  }

  function After(free: seq<nat>, k: nat): nat
    requires k < |free|
  {
    if k + 1 < |free| then free[k + 1] else NIL
  }

  ghost predicate FreeChain(heap: seq<nat>, head: nat, free: seq<nat>)
  {
    && head == (if free == [] then NIL else free[0])
    && forall k :: 0 <= k < |free| ==> free[k] < |heap| && heap[free[k]] == After(free, k)
  }

  /** The heap holds exactly the treap's nodes, and every back-index is correct. */
  ghost predicate HeapAgrees(s: State)
  {
    && H.Linked(s.heap, s.h) && Sized(s.h, s.size)
    && forall i :: i in s.h <==> i in Ids(s.tree)
  }

  ghost predicate TreapAgrees(s: State)
  {
    IsTree(s.left, s.right, s.root, s.tree) && IsTreap(s.tree, s.off)
  }

  ghost predicate Sound(s: State, held: set<nat>, pub: nat)
  {
    && Shaped(s, pub) && Split(Ids(s.tree), held, s.free, s.next, pub)
    && FreeChain(s.heap, s.head, s.free) && HeapAgrees(s) && TreapAgrees(s)
  }

  // ---------- taking and returning nodes ----------

  lemma ChainEmpty(heap: seq<nat>, free: seq<nat>)
    requires FreeChain(heap, NIL, free) && |heap| <= NIL
    ensures free == []
  {
  }

  lemma ChainPop(heap: seq<nat>, head: nat, free: seq<nat>)
    requires FreeChain(heap, head, free) && head != NIL
    ensures |free| > 0 && head == free[0] < |heap| && FreeChain(heap, heap[head], free[1..])
  {
    assert heap[free[0]] == After(free, 0);
    forall k | 0 <= k < |free| - 1 ensures free[1..][k] == free[k + 1] && After(free[1..], k) == After(free, k + 1) {
    }
  }

  lemma ChainPush(heap: seq<nat>, head: nat, free: seq<nat>, id: nat)
    requires FreeChain(heap, head, free) && id < |heap| && id !in free
    ensures FreeChain(heap[id := head], id, [id] + free)
  {
    var free', heap' := [id] + free, heap[id := head];
    forall k | 0 <= k < |free'|
      ensures free'[k] < |heap'| && heap'[free'[k]] == After(free', k)
    {
      if k > 0 {
        assert free'[k] == free[k - 1] && free[k - 1] in free && After(free', k) == After(free, k - 1);
      }
    }
  }

  lemma TakeFree(s: State, held: set<nat>, pub: nat)
    requires Sound(s, held, pub) && s.head != NIL
    ensures s.head < pub && s.head !in Ids(s.tree) && s.head !in held && s.head < |s.heap| && |s.free| > 0
    ensures Sound(s.(head := s.heap[s.head], free := s.free[1..]), held + {s.head}, pub)
  {
    hide HeapAgrees, TreapAgrees, Ids, FreeChain;
    ChainPop(s.heap, s.head, s.free);
    var id := s.head;
    assert s.free == [id] + s.free[1..];
    var s' := s.(head := s.heap[id], free := s.free[1..]);
    assert Split(Ids(s.tree), held + {id}, s'.free, s.next, pub) by {
      forall k | 0 <= k < |s'.free| ensures s'.free[k] == s.free[k + 1] {
      }
    }
    assert HeapAgrees(s') by { SameHeap(s, s'); }
    assert TreapAgrees(s') by { SameTreap(s, s'); }
  }

  lemma TakeNew(s: State, held: set<nat>, pub: nat)
    requires Sound(s, held, pub) && s.head == NIL && s.next < pub
    ensures s.next !in Ids(s.tree) && s.next !in held
    ensures Sound(s.(next := s.next + 1), held + {s.next}, pub)
  {
    hide HeapAgrees, TreapAgrees, Ids;
    var s' := s.(next := s.next + 1);
    ChainEmpty(s.heap, s.free);
    assert HeapAgrees(s') by { SameHeap(s, s'); }
    assert TreapAgrees(s') by { SameTreap(s, s'); }
  }

  lemma SameHeap(s: State, s': State)
    requires HeapAgrees(s) && s'.heap == s.heap && s'.h == s.h && |s'.size| == |s.size| && s'.tree == s.tree
    ensures HeapAgrees(s')
  {
  }

  lemma SameTreap(s: State, s': State)
    requires TreapAgrees(s) && s'.left == s.left && s'.right == s.right && s'.root == s.root
    requires s'.tree == s.tree && s'.off == s.off
    ensures TreapAgrees(s')
  {
  }

  lemma Return(s: State, held: set<nat>, pub: nat, id: nat)
    requires Sound(s, held, pub) && id in held
    ensures id < |s.heap|
    ensures Sound(s.(heap := s.heap[id := s.head], head := id, free := [id] + s.free), held - {id}, pub)
  {
    hide TreapAgrees, Ids, FreeChain;
    var s' := s.(heap := s.heap[id := s.head], head := id, free := [id] + s.free);
    assert TreapAgrees(s') by { SameTreap(s, s'); }
    forall k | 0 <= k < |s.h| ensures s.h[k] != id {
      assert s.h[k] in s.h;
    }
    assert HeapAgrees(s');
    ChainPush(s.heap, s.head, s.free, id);
    assert Split(Ids(s.tree), held - {id}, s'.free, s.next, pub);
  }

  // ---------- changing blocks ----------

  lemma {:induction false} OffsetsElsewhere(t: Tree, off: seq<nat>, off': seq<nat>)
    requires IsTreap(t, off) && |off'| == |off|
    requires forall i :: i in Ids(t) ==> off'[i] == off[i]
    ensures IsTreap(t, off')
  {
    hide Prio;
    match t
    case Leaf =>
    case Node(l, i, r) =>
      OffsetsElsewhere(l, off, off');
      OffsetsElsewhere(r, off, off');
  }

  /** A held node's block may be set freely. */
  lemma SetHeld(s: State, held: set<nat>, pub: nat, id: nat, o: nat, n: nat)
    requires Sound(s, held, pub) && id in held
    ensures id < |s.off| && id < |s.size|
    ensures Sound(s.(off := s.off[id := o], size := s.size[id := n]), held, pub)
  {
    hide Ids;
    var s' := s.(off := s.off[id := o], size := s.size[id := n]);
    OffsetsElsewhere(s.tree, s.off, s'.off);
    hide IsTree, IsTreap, H.Linked;
    assert HeapAgrees(s');
  }

  /** Any block may change its size where it stands. */
  lemma SetSize(s: State, held: set<nat>, pub: nat, id: nat, n: nat)
    requires Sound(s, held, pub) && id < |s.size|
    ensures Sound(s.(size := s.size[id := n]), held, pub)
  {
    hide Ids, IsTree, IsTreap, H.Linked;
    var s' := s.(size := s.size[id := n]);
    assert HeapAgrees(s');
  }

  // ---------- entering and leaving the heap and the treap ----------

  /** `s'` is `s` with other treap links and heap contents. */
  ghost predicate Relinked(s: State, s': State, t': Tree, h': seq<nat>)
  {
    && s' == s.(left := s'.left, right := s'.right, root := s'.root, tree := t', heap := s'.heap, h := h')
    && |s'.left| == |s.left| && |s'.right| == |s.right|
    && IsTree(s'.left, s'.right, s'.root, t') && H.Linked(s'.heap, h')
  }

  lemma ChainKept(heap: seq<nat>, heap': seq<nat>, head: nat, free: seq<nat>, ids: multiset<nat>)
    requires FreeChain(heap, head, free) && H.KeepsOthers(heap, heap', ids)
    requires forall k :: 0 <= k < |free| ==> free[k] !in ids
    ensures FreeChain(heap', head, free)
  {
  }

  lemma MembersFit(h: seq<nat>, t: set<nat>, pub: nat)
    requires forall i :: i in h <==> i in t
    requires forall k, m :: 0 <= k < m < |h| ==> h[k] != h[m]
    requires forall i :: i in t ==> i < pub
    ensures |h| <= pub
  {
    forall k | 0 <= k < |h| ensures h[k] < pub {
      assert h[k] in h;
    }
    DistinctBelow(h, pub);
  }

  lemma {:induction false} DistinctBelow(h: seq<nat>, n: nat)
    requires forall k :: 0 <= k < |h| ==> h[k] < n
    requires forall k, m :: 0 <= k < m < |h| ==> h[k] != h[m]
    ensures |h| <= n
  {
    if h != [] {
      if n - 1 in h {
        var k :| 0 <= k < |h| && h[k] == n - 1;
        var g := h[..k] + h[k + 1..];
        forall a, b | 0 <= a < b < |g| ensures g[a] != g[b] {
        }
        forall a | 0 <= a < |g| ensures g[a] < n - 1 {
        }
        DistinctBelow(g, n - 1);
      } else {
        DistinctBelow(h, n - 1);
      }
    }
  }

  lemma PushMembers(h: seq<nat>, size: seq<nat>, id: nat)
    requires Sized(h, size) && id < |size|
    ensures forall i :: i in Push(h, size, id) <==> i in h || i == id
  {
    var h' := Push(h, size, id);
    hide Push;
    assert forall i :: i in h' <==> i in multiset(h');
    assert forall i :: i in h <==> i in multiset(h);
  }

  lemma FixMembers(h: seq<nat>, size: seq<nat>, pos: nat)
    requires Sized(h, size) && pos < |h|
    ensures forall i :: i in MaxHeap.Fix(h, size, pos) <==> i in h
  {
    var h' := MaxHeap.Fix(h, size, pos);
    hide MaxHeap.Fix;
    assert forall i :: i in h' <==> i in multiset(h');
    assert forall i :: i in h <==> i in multiset(h);
  }

  lemma RemoveMembers(heap: seq<nat>, h: seq<nat>, size: seq<nat>, pos: nat)
    requires H.Linked(heap, h) && Sized(h, size) && pos < |h|
    ensures forall i :: i in Remove(h, size, pos) <==> i in h && i != h[pos]
  {
    NoRepeats(heap, h, pos);
    var h' := Remove(h, size, pos);
    hide Remove;
    assert forall i :: i in h' <==> i in multiset(h');
    assert forall i :: i in h <==> i in multiset(h);
  }

  lemma NoRepeats(heap: seq<nat>, h: seq<nat>, k: nat)
    requires H.Linked(heap, h) && k < |h|
    ensures multiset(h)[h[k]] == 1
  {
    var a, b := h[..k], h[k + 1..];
    assert h == a + [h[k]] + b;
    assert h[k] !in a && h[k] !in b;
  }

  /** The books balance again once the heap and the treap hold the same nodes. */
  lemma Rebalanced(s: State, held: set<nat>, pub: nat, s': State, held': set<nat>, ids: multiset<nat>)
    requires Sound(s, held, pub) && Shaped(s'.(h := []), pub)
    requires s'.head == s.head && s'.next == s.next && s'.free == s.free
    requires H.Linked(s'.heap, s'.h) && H.KeepsOthers(s.heap, s'.heap, ids) && TreapAgrees(s')
    requires forall i :: i in ids ==> i in Ids(s.tree) + held
    requires forall i :: i in s'.h <==> i in Ids(s'.tree)
    requires Ids(s'.tree) + held' == Ids(s.tree) + held && Ids(s'.tree) !! held'
    ensures Sound(s', held', pub)
  {
    hide TreapAgrees, Ids;
    ChainKept(s.heap, s'.heap, s.head, s.free, ids);
    hide FreeChain;
    assert forall i :: i in Ids(s'.tree) ==> i in Ids(s'.tree) + held';
    assert forall i :: i in Ids(s'.tree) ==> i < pub;
    forall k, m | 0 <= k < m < |s'.h| ensures s'.h[k] != s'.h[m] {
    }
    MembersFit(s'.h, Ids(s'.tree), pub);
    assert Sized(s'.h, s'.size) by {
      forall k | 0 <= k < |s'.h| ensures s'.h[k] < |s'.size| {
        assert s'.h[k] in s'.h;
      }
    }
    assert forall i :: i in Ids(s.tree) || i in held <==> i in Ids(s.tree) + held;
    assert forall i :: i in Ids(s'.tree) || i in held' <==> i in Ids(s'.tree) + held';
  }

  lemma HeapMembers(s: State)
    requires HeapAgrees(s)
    ensures forall i :: i in multiset(s.h) <==> i in Ids(s.tree)
  {
  }

  lemma Reshaped(s: State, s': State, t': Tree, h': seq<nat>, pub: nat, ids: multiset<nat>)
    requires Shaped(s, pub) && Relinked(s, s', t', h') && H.KeepsOthers(s.heap, s'.heap, ids)
    ensures Shaped(s'.(h := []), pub)
  {
  }

  lemma InsertedIds(s: State, held: set<nat>, pub: nat, id: nat, s': State)
    requires Sound(s, held, pub) && id in held && id < |s.off| && s.off[id] < WORD && id < |s.size|
    requires forall i :: i in Ids(s.tree) ==> s.off[i] != s.off[id]
    requires Relinked(s, s', Treap.Insert(s.tree, s.off, id), Push(s.h, s.size, id))
    ensures TreapAgrees(s') && Ids(s'.tree) == Ids(s.tree) + {id} && Ids(s.tree) !! held
    ensures forall i :: i in s'.h <==> i in Ids(s'.tree)
    ensures forall i :: i in multiset(s.h) + multiset{id} ==> i in Ids(s.tree) + held
  {
    hide IsTree, IsTreap, Push, Treap.Insert, Ids, FreeChain, H.Linked;
    InsertCorrect(s.tree, s.off, id);
    PushMembers(s.h, s.size, id);
    HeapMembers(s);
  }

  /** A held block joins the free blocks. */
  lemma Inserted(s: State, held: set<nat>, pub: nat, id: nat, s': State)
    requires Sound(s, held, pub) && id in held && id < |s.off| && s.off[id] < WORD && id < |s.size|
    requires forall i :: i in Ids(s.tree) ==> s.off[i] != s.off[id]
    requires Relinked(s, s', Treap.Insert(s.tree, s.off, id), Push(s.h, s.size, id))
    requires H.KeepsOthers(s.heap, s'.heap, multiset(s.h) + multiset{id})
    ensures Sound(s', held - {id}, pub)
  {
    hide Sound, Shaped, TreapAgrees, IsTree, Ids, H.Linked, H.KeepsOthers, Push, Treap.Insert;
    HeapReady(s, held, pub);
    TreapReady(s, held, pub);
    Reshaped(s, s', Treap.Insert(s.tree, s.off, id), Push(s.h, s.size, id), pub, multiset(s.h) + multiset{id});
    InsertedIds(s, held, pub, id, s');
    Rebalanced(s, held, pub, s', held - {id}, multiset(s.h) + multiset{id});
  }

  lemma ErasedIds(s: State, held: set<nat>, pub: nat, id: nat, s': State)
    requires Sound(s, held, pub) && id in Ids(s.tree) && id < |s.heap| && s.heap[id] < |s.h| && s.h[s.heap[id]] == id
    requires id < |s.off| && InRange(Ids(s.tree), s.off) && Sized(s.h, s.size)
    requires Relinked(s, s', Treap.Erase(s.tree, s.off, s.off[id]), Remove(s.h, s.size, s.heap[id]))
    ensures TreapAgrees(s') && Ids(s'.tree) == Ids(s.tree) - {id} && Ids(s.tree) !! held
    ensures forall i :: i in s'.h <==> i in Ids(s'.tree)
    ensures forall i :: i in multiset(s.h) ==> i in Ids(s.tree) + held
  {
    hide IsTree, IsTreap, Remove, Treap.Erase, Ids, FreeChain, H.Linked;
    EraseCorrect(s.tree, s.off, id);
    RemoveMembers(s.heap, s.h, s.size, s.heap[id]);
    HeapMembers(s);
  }

  /** A free block leaves the heap and the treap and is held. */
  lemma Erased(s: State, held: set<nat>, pub: nat, id: nat, s': State)
    requires Sound(s, held, pub) && id in Ids(s.tree) && id < |s.heap| && s.heap[id] < |s.h| && s.h[s.heap[id]] == id
    requires id < |s.off| && InRange(Ids(s.tree), s.off) && Sized(s.h, s.size)
    requires Relinked(s, s', Treap.Erase(s.tree, s.off, s.off[id]), Remove(s.h, s.size, s.heap[id]))
    requires H.KeepsOthers(s.heap, s'.heap, multiset(s.h))
    ensures Sound(s', held + {id}, pub) && Ids(s'.tree) == Ids(s.tree) - {id}
  {
    hide Sound, Shaped, TreapAgrees, IsTree, Ids, H.Linked, H.KeepsOthers, Remove, Treap.Erase;
    HeapReady(s, held, pub);
    Reshaped(s, s', Treap.Erase(s.tree, s.off, s.off[id]), Remove(s.h, s.size, s.heap[id]), pub, multiset(s.h));
    ErasedIds(s, held, pub, id, s');
    Rebalanced(s, held, pub, s', held + {id}, multiset(s.h));
  }

  /** A free block's size has changed and its heap position is mended. */
  lemma Fixed(s: State, held: set<nat>, pub: nat, id: nat, s': State)
    requires Sound(s, held, pub) && id in Ids(s.tree) && id < |s.heap| && s.heap[id] < |s.h|
    requires Sized(s.h, s.size)
    requires s' == s.(heap := s'.heap, h := MaxHeap.Fix(s.h, s.size, s.heap[id]))
    requires H.Linked(s'.heap, s'.h) && H.KeepsOthers(s.heap, s'.heap, multiset(s.h))
    ensures Sound(s', held, pub)
  {
    FixMembers(s.h, s.size, s.heap[id]);
    HeapMembers(s);
    hide IsTree, IsTreap, MaxHeap.Fix, Ids, FreeChain, H.Linked, H.KeepsOthers;
    Rebalanced(s, held, pub, s', held, multiset(s.h));
  }

  lemma MovedTree(t: Tree, off: seq<nat>, off': seq<nat>, id: nat, o: nat)
    requires IsTreap(t, off) && id in Ids(t) && id < |off| && off' == off[id := o] && o < WORD
    requires forall i :: i in Ids(t) && i != id ==> off[i] != o
    ensures var t' := Treap.Erase(t, off, off[id]);
      InRange(Ids(t'), off') && IsTreap(Treap.Insert(t', off', id), off') && Ids(Treap.Insert(t', off', id)) == Ids(t)
  {
    EraseCorrect(t, off, id);
    var t' := Treap.Erase(t, off, off[id]);
    hide Treap.Erase, Treap.Insert, Prio;
    OffsetsElsewhere(t', off, off');
    InsertCorrect(t', off', id);
  }

  /** A free block is taken out of the treap, moved, and put back, and then its heap position
      is mended. */
  lemma Moved(s: State, held: set<nat>, pub: nat, id: nat, o: nat, s': State)
    requires Sound(s, held, pub) && id in Ids(s.tree) && id < |s.heap| && s.heap[id] < |s.h|
    requires id < |s.off| && InRange(Ids(s.tree), s.off) && o < WORD
    requires forall i :: i in Ids(s.tree) && i != id ==> s.off[i] != o
    requires s'.off == s.off[id := o] && |s'.size| == |s.size| && Sized(s.h, s'.size)
    requires var t := Treap.Erase(s.tree, s.off, s.off[id]);
      InRange(Ids(t), s'.off)
      && Relinked(s.(off := s'.off, size := s'.size), s', Treap.Insert(t, s'.off, id),
                  MaxHeap.Fix(s.h, s'.size, s.heap[id]))
    requires H.KeepsOthers(s.heap, s'.heap, multiset(s.h))
    ensures Sound(s', held, pub)
  {
    MovedTree(s.tree, s.off, s'.off, id, o);
    FixMembers(s.h, s'.size, s.heap[id]);
    HeapMembers(s);
    hide IsTree, IsTreap, MaxHeap.Fix, Ids, Treap.Erase, Treap.Insert, FreeChain, H.Linked, H.KeepsOthers;
    Rebalanced(s, held, pub, s', held, multiset(s.h));
  }

  // ---------- what the operations need ----------

  lemma HeapReady(s: State, held: set<nat>, pub: nat)
    requires Sound(s, held, pub)
    ensures Shaped(s, pub) && H.Linked(s.heap, s.h) && Sized(s.h, s.size)
    ensures forall i :: i in s.h <==> i in Ids(s.tree)
    ensures forall i :: i in Ids(s.tree) ==> i < pub && i !in held
  {
    hide Ids;
  }

  lemma TreapReady(s: State, held: set<nat>, pub: nat)
    requires Sound(s, held, pub)
    ensures Shaped(s, pub) && IsTree(s.left, s.right, s.root, s.tree) && IsTreap(s.tree, s.off)
    ensures InRange(Ids(s.tree), s.off) && Bst(s.tree, s.off) && Distinct(s.tree)
    ensures forall i :: i in Ids(s.tree) ==> i < pub && i !in held
  {
    BstDistinct(s.tree, s.off);
    hide Ids;
  }

  /** A changed size leaves one entry loose. */
  lemma Loosened(heap: seq<nat>, h: seq<nat>, size: seq<nat>, pos: nat, n: nat)
    requires H.Linked(heap, h) && Ordered(h, size) && pos < |h| && h[pos] < |size|
    ensures Loose(h, size[h[pos] := n], pos)
  {
    var size' := size[h[pos] := n];
    forall k | 0 <= k < |h| && k != pos ensures h[k] < |size| && size'[h[k]] == size[h[k]] {
    }
    forall i | 0 < i < |h| && i != pos && Parent(i) != pos ensures Edge(h, size', i) {
      assert Edge(h, size, i);
    }
    forall i | 0 < pos && 0 < i < |h| && Parent(i) == pos ensures Key(h, size', i) <= Key(h, size', Parent(pos)) {
      assert Edge(h, size, i) && Edge(h, size, pos);
    }
  }

  /** Nodes that stand for no block of their own have a page each, outside the given pages. */
  ghost predicate Spare(spots: map<nat, nat>, pages: set<nat>, pub: nat)
  {
    && (forall i :: i in spots ==> spots[i] < pub && spots[i] !in pages)
    && (forall i, j :: i in spots && j in spots && i != j ==> spots[i] != spots[j])
  }

  /** Nodes stand at the pages given. */
  ghost predicate Placed(s: State, spots: map<nat, nat>)
  {
    forall i :: i in spots ==> i < |s.off| && s.off[i] == spots[i]
  }

  lemma {:induction false} SpotsSize(spots: map<nat, nat>, ids: set<nat>) returns (pages: set<nat>)
    requires ids <= spots.Keys && forall i, j :: i in spots && j in spots && i != j ==> spots[i] != spots[j]
    ensures |pages| == |ids| && forall p :: p in pages <==> exists i :: i in ids && spots[i] == p
    decreases |ids|
  {
    if ids == {} {
      pages := {};
    } else {
      var i :| i in ids;
      pages := SpotsSize(spots, ids - {i});
      assert spots[i] !in pages;
      pages := pages + {spots[i]};
      assert |ids| == |ids - {i}| + 1;
    }
  }

  /** While some page starts no block and is nobody's spot, there is a node left to take. */
  lemma Room(s: State, held: set<nat>, spots: map<nat, nat>, pub: nat, p: nat)
    requires Sound(s, held + spots.Keys, pub) && held !! spots.Keys
    requires Disjoint(s.off, s.size, Ids(s.tree) + held, pub)
    requires Spare(spots, Pages(s.off, s.size, Ids(s.tree)) + Pages(s.off, s.size, held), pub)
    requires p < pub && forall i :: i in Ids(s.tree) + held && i < |s.off| ==> s.off[i] != p
    requires forall i :: i in spots ==> spots[i] != p
    ensures s.head == NIL ==> s.next < pub
  {
    hide Ids, Run, Pages, Disjoint, Spare, HeapAgrees, TreapAgrees;
    if s.head == NIL {
      ChainEmpty(s.heap, s.free);
      assert Ids(s.tree) + held + spots.Keys == Run(0, s.next);
      hide FreeChain;
      RunSize(0, s.next);
      FewerNodes(s.off, s.size, Ids(s.tree), held, spots, pub, p);
    }
  }

  lemma BlockStarts(off: seq<nat>, size: seq<nat>, t: set<nat>, held: set<nat>, pub: nat, p: nat)
    returns (starts: set<nat>)
    requires Disjoint(off, size, t + held, pub) && forall i :: i in t + held && i < |off| ==> off[i] != p
    ensures |starts| == |t + held| && starts <= Run(0, pub) - {p}
    ensures starts <= Pages(off, size, t) + Pages(off, size, held)
  {
    hide Run;
    starts := StartsSize(off, size, t + held, pub);
    forall q | q in starts ensures q in Pages(off, size, t) + Pages(off, size, held) && q in Run(0, pub) - {p} {
      var i :| i in t + held && off[i] == q;
      assert q in Run(off[i], size[i]);
    }
  }

  lemma FewerNodes(off: seq<nat>, size: seq<nat>, t: set<nat>, held: set<nat>, spots: map<nat, nat>, pub: nat, p: nat)
    requires Disjoint(off, size, t + held, pub) && t + held !! spots.Keys
    requires Spare(spots, Pages(off, size, t) + Pages(off, size, held), pub)
    requires p < pub && forall i :: i in t + held && i < |off| ==> off[i] != p
    requires forall i :: i in spots ==> spots[i] != p
    ensures |t + held + spots.Keys| < pub
  {
    hide *;
    var starts := BlockStarts(off, size, t, held, pub, p);
    var others := SpotsIn(spots, Pages(off, size, t) + Pages(off, size, held), pub, p);
    RunSize(0, pub);
    SubsetSize(starts + others, Run(0, pub) - {p});
    SumSize(starts, others);
    SumSize(t + held, spots.Keys);
  }

  lemma SumSize(a: set<nat>, b: set<nat>)
    requires a !! b
    ensures |a + b| == |a| + |b|
  {
  }

  lemma SpotsIn(spots: map<nat, nat>, pages: set<nat>, pub: nat, p: nat) returns (others: set<nat>)
    requires Spare(spots, pages, pub) && forall i :: i in spots ==> spots[i] != p
    ensures |others| == |spots.Keys| && others !! pages && others <= Run(0, pub) - {p}
  {
    hide Run;
    others := SpotsSize(spots, spots.Keys);
  }

  /** Writing all fields of a held node. */
  lemma SetNode(s: State, held: set<nat>, pub: nat, id: nat, o: nat, n: nat)
    requires Sound(s, held, pub) && id in held
    ensures id < pub && pub == |s.off| == |s.size| == |s.left| == |s.right| == |s.heap|
    ensures Sound(s.(off := s.off[id := o], size := s.size[id := n], left := s.left[id := NIL],
                     right := s.right[id := NIL], heap := s.heap[id := NIL]), held, pub)
  {
    SetHeld(s, held, pub, id, o, n);
    var s1 := s.(off := s.off[id := o], size := s.size[id := n]);
    var s2 := s1.(left := s.left[id := NIL], right := s.right[id := NIL], heap := s.heap[id := NIL]);
    TreeFrame(s.left, s.right, s.root, s.tree, s2.left, s2.right);
    hide IsTree, IsTreap, Ids;
    forall k | 0 <= k < |s.h| ensures s.h[k] != id {
      assert s.h[k] in s.h;
    }
    assert HeapAgrees(s2);
    assert H.KeepsOthers(s.heap, s2.heap, multiset{id});
    ChainKept(s.heap, s2.heap, s.head, s.free, multiset{id});
  }

  /** A node outside the heap leaves a free slot in the heap array. */
  lemma RoomInHeap(s: State, held: set<nat>, pub: nat, id: nat)
    requires Sound(s, held, pub) && id in held
    ensures |s.h| < pub && id !in s.h
  {
    hide Ids;
    var g := s.h + [id];
    assert id !in s.h;
    forall k | 0 <= k < |s.h| ensures s.h[k] < pub && s.h[k] != id {
      assert s.h[k] in s.h;
    }
    DistinctBelow(g, pub);
  }

  /** Heap order looks only at the sizes of the heap's own nodes. */
  lemma OrderedElsewhere(h: seq<nat>, size: seq<nat>, size': seq<nat>)
    requires Ordered(h, size) && |size'| == |size|
    requires forall i :: i in h && i < |size| ==> size'[i] == size[i]
    ensures Ordered(h, size')
  {
    forall k | 0 <= k < |h| ensures h[k] in h && size'[h[k]] == size[h[k]] {
    }
    forall i | 0 < i < |h| ensures Edge(h, size', i) {
      assert Edge(h, size, i);
    }
  }

  lemma AtBackIndexOf(heap: seq<nat>, h: seq<nat>, id: nat)
    requires H.Linked(heap, h) && id in h
    ensures id < |heap| && heap[id] < |h| && h[heap[id]] == id
  {
    H.AtBackIndex(heap, h, id);
  }

  lemma DistinctErased(s: State, held: set<nat>, pub: nat, id: nat)
    requires Sound(s, held, pub) && id in Ids(s.tree) && id < |s.off| && InRange(Ids(s.tree), s.off)
    ensures Distinct(Treap.Erase(s.tree, s.off, s.off[id])) && id !in Ids(Treap.Erase(s.tree, s.off, s.off[id]))
  {
    EraseCorrect(s.tree, s.off, id);
    BstDistinct(Treap.Erase(s.tree, s.off, s.off[id]), s.off);
  }

  /** A new free block in unheld pages: what it needs, and what it makes of the blocks. */
  lemma BlockAdded(off: seq<nat>, size: seq<nat>, t: set<nat>, held: set<nat>, pub: nat, id: nat, o: nat, n: nat)
    requires Disjoint(off, size, t + held, pub) && t !! held && id !in t + held && id < |off|
    requires n > 0 && o + n <= pub && Run(o, n) !! Pages(off, size, t) && Run(o, n) !! Pages(off, size, held)
    ensures var (off', size') := (off[id := o], size[id := n]);
      && Disjoint(off', size', (t + {id}) + held, pub)
      && Pages(off', size', t + {id}) == Pages(off, size, t) + Run(o, n)
      && Pages(off', size', held) == Pages(off, size, held)
      && (Spaced(off, size, t) && ClearOf(off, size, t, o, n) ==> Spaced(off', size', t + {id}))
      && (forall i :: i in t && i < |off| ==> off'[i] != o)
  {
    AddIn(off, size, t, held, pub, id, o, n);
    FreshStart(off, size, t, pub, o, n);
    if Spaced(off, size, t) && ClearOf(off, size, t, o, n) {
      SpacedAdd(off, size, t, id, o, n);
    }
  }

  lemma RoomFor(s: State, held: set<nat>, spots: map<nat, nat>, pub: nat, o: nat, n: nat, p: nat)
    requires Sound(s, held + spots.Keys, pub) && held !! spots.Keys && BlocksApart(s, held, pub)
    requires Spare(spots, Free(s) + Held(s, held), pub) && n > 0 && o + n <= pub
    requires Run(o, n) !! Free(s) && Run(o, n) !! Held(s, held)
    requires p in Run(o, n) && forall i :: i in spots ==> spots[i] != p
    ensures s.head == NIL ==> s.next < pub
    ensures Ids(s.tree) !! held && |s.off| == |s.size| == pub && pub < WORD
    ensures forall i :: i in Ids(s.tree) && i < |s.off| ==> s.off[i] != o
  {
    hide Ids, Run;
    assert o in Run(o, n);
    StartsNone(s.off, s.size, Ids(s.tree), held, pub, o);
    StartsNone(s.off, s.size, Ids(s.tree), held, pub, p);
    Room(s, held, spots, pub, p);
  }

  /** A heap kept in order when one of its blocks is used up. */
  lemma OrderedWithout(s: State, held: set<nat>, pub: nat, id: nat)
    requires Sound(s, held, pub) && id in Ids(s.tree)
    ensures Sized(s.h, s.size) && id < |s.heap| && s.heap[id] < |s.h|
    ensures Ordered(s.h, s.size) ==> Ordered(Remove(s.h, s.size, s.heap[id]), s.size)
  {
    HeapReady(s, held, pub);
    AtBackIndexOf(s.heap, s.h, id);
    if Ordered(s.h, s.size) { RemoveOrders(s.h, s.size, s.heap[id]); }
  }

  // ---------- steps on the free pages ----------

  ghost function Free(s: State): set<nat>
  {
    Pages(s.off, s.size, Ids(s.tree))
  }

  ghost function Held(s: State, held: set<nat>): set<nat>
  {
    Pages(s.off, s.size, held)
  }

  ghost predicate BlocksApart(s: State, held: set<nat>, pub: nat)
  {
    Disjoint(s.off, s.size, Ids(s.tree) + held, pub)
  }

  /** No two free blocks touch. */
  ghost predicate Coalesced(s: State)
  {
    Spaced(s.off, s.size, Ids(s.tree))
  }

  /** The pages [o, o + n) have been taken out of the free blocks. */
  ghost predicate RunTaken(s: State, s': State, held: set<nat>, pub: nat, o: nat, n: nat)
  {
    Withdrawn(s.off, s.size, Ids(s.tree), held, s'.off, s'.size, Ids(s'.tree), pub, o, n)
  }

  lemma FrontTaken(s: State, s': State, all: set<nat>, held: set<nat>, pub: nat, id: nat, n: nat)
    requires Sound(s, all, pub) && held <= all && BlocksApart(s, held, pub) && id in Ids(s.tree) && id < |s.off|
      && id < |s.size|
    requires 0 < n < s.size[id] && Ids(s'.tree) == Ids(s.tree)
    requires s'.off == s.off[id := s.off[id] + n] && s'.size == s.size[id := s.size[id] - n]
    ensures RunTaken(s, s', held, pub, s.off[id], n)
  {
    hide Run, Pages, Spaced, Ids, Disjoint, Withdrawn, FreeChain, HeapAgrees, TreapAgrees;
    var off: seq<nat>, size: seq<nat>, t: set<nat> := s.off, s.size, Ids(s.tree);
    FrontLost(off, size, t, held, pub, id, n, off[id := off[id] + n], size[id := size[id] - n]);
  }

  lemma AllTaken(s: State, s': State, all: set<nat>, held: set<nat>, pub: nat, id: nat)
    requires Sound(s, all, pub) && held <= all && BlocksApart(s, held, pub) && id in Ids(s.tree) && id < |s.off|
      && id < |s.size|
    requires Ids(s'.tree) == Ids(s.tree) - {id} && s'.off == s.off && s'.size == s.size
    ensures RunTaken(s, s', held, pub, s.off[id], s.size[id])
  {
    hide Run, Pages, Spaced, Ids, Disjoint, Sound, Withdrawn;
    AllLost(s.off, s.size, Ids(s.tree), held, pub, id);
  }

  lemma RearTaken(s: State, s': State, all: set<nat>, held: set<nat>, pub: nat, id: nat, n: nat)
    requires Sound(s, all, pub) && held <= all && BlocksApart(s, held, pub) && id in Ids(s.tree) && id < |s.off|
      && id < |s.size|
    requires 0 < n <= s.size[id] && Ids(s'.tree) == Ids(s.tree)
    requires s'.off == s.off && s'.size == s.size[id := n]
    ensures RunTaken(s, s', held, pub, s.off[id] + n, s.size[id] - n)
  {
    hide Run, Pages, Spaced, Ids, Disjoint, Withdrawn, FreeChain, HeapAgrees, TreapAgrees;
    var off: seq<nat>, size: seq<nat>, t: set<nat> := s.off, s.size, Ids(s.tree);
    RearLost(off, size, t, held, pub, id, n, size[id := n]);
  }

  /** The pages [o, o + n) have joined the free blocks. */
  ghost predicate RunFreed(s: State, s': State, held: set<nat>, pub: nat, o: nat, n: nat)
  {
    Joined(s.off, s.size, Ids(s.tree), held, s'.off, s'.size, Ids(s'.tree), pub, o, n)
  }

  lemma RunAdded(s: State, s': State, all: set<nat>, held: set<nat>, pub: nat, id: nat, o: nat, n: nat)
    requires Sound(s, all, pub) && held <= all && BlocksApart(s, held, pub) && id !in Ids(s.tree) + held
      && id < |s.off| && id < |s.size|
    requires n > 0 && o + n <= pub && Run(o, n) !! Free(s) && Run(o, n) !! Held(s, held)
    requires Ids(s'.tree) == Ids(s.tree) + {id} && s'.off == s.off[id := o] && s'.size == s.size[id := n]
    ensures RunFreed(s, s', held, pub, o, n)
  {
    hide Run, Pages, Spaced, Ids, Disjoint, FreeChain, HeapAgrees, TreapAgrees, ClearOf;
    var off: seq<nat>, size: seq<nat>, t: set<nat> := s.off, s.size, Ids(s.tree);
    BlockAdded(off, size, t, held, pub, id, o, n);
  }

  lemma MiddleTaken(s: State, s1: State, s': State, held: set<nat>, pub: nat, id: nat, l: nat, p: nat)
    requires BlocksApart(s, held, pub) && id in Ids(s.tree) && id < |s.off| && id < |s.size|
    requires 0 < l && 0 < p && l + p < s.size[id] && Ids(s1.tree) == Ids(s.tree)
    requires s1.off == s.off && s1.size == s.size[id := l]
    requires RunTaken(s, s1, held, pub, s.off[id] + l, s.size[id] - l)
    requires RunFreed(s1, s', held, pub, s.off[id] + l + p, s.size[id] - l - p)
    ensures RunTaken(s, s', held, pub, s.off[id] + l, p)
  {
    hide Run, Pages, Spaced, Ids, Disjoint, Withdrawn, Joined;
    var off: seq<nat>, size: seq<nat>, t: set<nat> := s.off, s.size, Ids(s.tree);
    MiddleLost(off, size, t, held, pub, id, l, p, s1.size, s'.off, s'.size, Ids(s'.tree));
  }

  lemma FreshFront(s: State, all: set<nat>, held: set<nat>, pub: nat, id: nat, n: nat)
    requires Sound(s, all, pub) && held <= all && BlocksApart(s, held, pub) && id in Ids(s.tree) && id < |s.off|
      && id < |s.size|
    requires 0 < n < s.size[id]
    ensures s.off[id] + n < pub && pub < WORD
    ensures forall k :: k in Ids(s.tree) && k != id && k < |s.off| ==> s.off[k] != s.off[id] + n
  {
    hide Ids;
  }

  lemma RearReady(s: State, s': State, all: set<nat>, held: set<nat>, spots: map<nat, nat>, pub: nat,
                  id: nat, l: nat, p: nat)
    requires Sound(s, all, pub) && held <= all && BlocksApart(s, held, pub)
    requires Spare(spots, Free(s) + Held(s, held), pub)
    requires id in Ids(s.tree) && id < |s.off| && id < |s.size|
    requires 0 < l && 0 < p && l + p < s.size[id]
    requires RunTaken(s, s', held, pub, s.off[id] + l, s.size[id] - l)
    ensures BlocksApart(s', held, pub) && s.off[id] + s.size[id] <= pub
    ensures Spare(spots, Free(s') + Held(s', held), pub)
    ensures forall i :: i in spots ==> spots[i] != s.off[id] + l + p
    ensures Run(s.off[id] + l + p, s.size[id] - l - p) !! Free(s')
    ensures Run(s.off[id] + l + p, s.size[id] - l - p) !! Held(s', held)
  {
    hide Run, Ids, FreeChain, HeapAgrees, TreapAgrees;
    PagesDisjoint(s.off, s.size, Ids(s.tree), held, pub);
    PagesIn(s.off, s.size, Ids(s.tree), id);
    assert s.off[id] + l + p in Run(s.off[id], s.size[id]);
    hide Pages;
  }
}
