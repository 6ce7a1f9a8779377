/** The treap as a value: a search tree on block offsets that is a min-heap on
    priorities.  Trees hold node ids; `off` gives each id's page offset. */
module Treap {
  import opened Priority

  datatype Tree = Leaf | Node(left: Tree, id: nat, right: Tree)

  ghost function Ids(t: Tree): set<nat>
  {
    match t
    case Leaf => {}
    case Node(l, i, r) => Ids(l) + {i} + Ids(r)
  }

  /** Every id names a block, and offsets are 32-bit words. */
  ghost predicate InRange(s: set<nat>, off: seq<nat>)
  {
    forall i :: i in s ==> i < |off| && off[i] < WORD
  }

  ghost predicate Below(s: set<nat>, off: seq<nat>, key: nat)
    requires InRange(s, off)
  {
    forall i :: i in s ==> off[i] < key
  }

  ghost predicate Above(s: set<nat>, off: seq<nat>, key: nat)
    requires InRange(s, off)
  {
    forall i :: i in s ==> key < off[i]
  }

  ghost predicate Bst(t: Tree, off: seq<nat>)
    requires InRange(Ids(t), off)
  {
    match t
    case Leaf => true
    case Node(l, i, r) =>
      Bst(l, off) && Bst(r, off) && Below(Ids(l), off, off[i]) && Above(Ids(r), off, off[i])
  }

  function PrioOf(i: nat, off: seq<nat>): nat
    requires i < |off|
  {
    Prio(off[i])
  }

  /** Priority `p` comes before the priority of every member. */
  ghost predicate Outranks(p: nat, s: set<nat>, off: seq<nat>)
    requires InRange(s, off)
  {
    forall i :: i in s ==> p < PrioOf(i, off)
  }

  ghost predicate HeapOrdered(t: Tree, off: seq<nat>)
    requires InRange(Ids(t), off)
  {
    match t
    case Leaf => true
    case Node(l, i, r) =>
      HeapOrdered(l, off) && HeapOrdered(r, off)
      && Outranks(PrioOf(i, off), Ids(l), off) && Outranks(PrioOf(i, off), Ids(r), off)
  }

  ghost predicate IsTreap(t: Tree, off: seq<nat>)
  {
    InRange(Ids(t), off) && Bst(t, off) && HeapOrdered(t, off)
  }

  // ---------- operations ----------

  /** The members below `key`, and the rest. */
  function Split(t: Tree, off: seq<nat>, key: nat): (ab: (Tree, Tree))
    requires InRange(Ids(t), off)
    ensures Ids(ab.0) + Ids(ab.1) == Ids(t)
  {
    match t
    case Leaf => (Leaf, Leaf)
    case Node(l, i, r) =>
      if off[i] < key then
        var (a, b) := Split(r, off, key);
        (Node(l, i, a), b)
      else
        var (a, b) := Split(l, off, key);
        (a, Node(b, i, r))
  }

  function Insert(t: Tree, off: seq<nat>, id: nat): (t': Tree)
    requires InRange(Ids(t), off) && id < |off|
    ensures Ids(t') == Ids(t) + {id}
  {
    match t
    case Leaf => Node(Leaf, id, Leaf)
    case Node(l, i, r) =>
      if PrioOf(id, off) < PrioOf(i, off) then
        var (a, b) := Split(t, off, off[id]);
        Node(a, id, b)
      else if off[id] < off[i] then
        Node(Insert(l, off, id), i, r)
      else
        Node(l, i, Insert(r, off, id))
  }

  /** Merges two trees, every offset on the left being below every one on the right. */
  function Join(l: Tree, r: Tree, off: seq<nat>): (t: Tree)
    requires InRange(Ids(l), off) && InRange(Ids(r), off)
    ensures Ids(t) == Ids(l) + Ids(r)
  {
    if l.Leaf? then r
    else if r.Leaf? then l
    else if PrioOf(l.id, off) < PrioOf(r.id, off) then
      Node(l.left, l.id, Join(l.right, r, off))
    else
      Node(Join(l, r.left, off), r.id, r.right)
  }

  function Erase(t: Tree, off: seq<nat>, key: nat): (t': Tree)
    requires InRange(Ids(t), off)
    ensures Ids(t') <= Ids(t)
  {
    match t
    case Leaf => Leaf
    case Node(l, i, r) =>
      if off[i] == key then Join(l, r, off)
      else if key < off[i] then Node(Erase(l, off, key), i, r)
      else Node(l, i, Erase(r, off, key))
  }

  // ---------- each operation keeps the treap ----------

  lemma {:induction false} SplitCorrect(t: Tree, off: seq<nat>, key: nat)
    requires IsTreap(t, off)
    requires forall i :: i in Ids(t) ==> off[i] != key
    ensures var (a, b) := Split(t, off, key);
      && IsTreap(a, off) && IsTreap(b, off)
      && Below(Ids(a), off, key) && Above(Ids(b), off, key)
  {
    hide PrioOf;
    match t
    case Leaf =>
    case Node(l, i, r) =>
      if off[i] < key {
        SplitCorrect(r, off, key);
      } else {
        SplitCorrect(l, off, key);
      }
  }

  lemma {:induction false} InsertCorrect(t: Tree, off: seq<nat>, id: nat)
    requires IsTreap(t, off) && InRange({id}, off)
    requires forall i :: i in Ids(t) ==> off[i] != off[id]
    ensures IsTreap(Insert(t, off, id), off)
  {
    hide Prio;
    match t
    case Leaf =>
    case Node(l, i, r) =>
      assert i in Ids(t);
      PrioInjective(off[id], off[i]);
      if PrioOf(id, off) < PrioOf(i, off) {
        SplitCorrect(t, off, off[id]);
      } else if off[id] < off[i] {
        InsertCorrect(l, off, id);
      } else {
        InsertCorrect(r, off, id);
      }
  }

  lemma {:induction false} JoinCorrect(l: Tree, r: Tree, off: seq<nat>)
    requires IsTreap(l, off) && IsTreap(r, off)
    requires forall i, j :: i in Ids(l) && j in Ids(r) ==> off[i] < off[j]
    ensures IsTreap(Join(l, r, off), off)
  {
    hide Prio;
    if l.Node? && r.Node? {
      assert l.id in Ids(l) && r.id in Ids(r);
      PrioInjective(off[l.id], off[r.id]);
      if PrioOf(l.id, off) < PrioOf(r.id, off) {
        JoinCorrect(l.right, r, off);
      } else {
        JoinCorrect(l, r.left, off);
      }
    }
  }

  lemma {:induction false} EraseCorrect(t: Tree, off: seq<nat>, id: nat)
    requires IsTreap(t, off) && id in Ids(t)
    ensures IsTreap(Erase(t, off, off[id]), off)
    ensures Ids(Erase(t, off, off[id])) == Ids(t) - {id}
  {
    hide PrioOf;
    match t
    case Leaf =>
    case Node(l, i, r) =>
      if off[i] == off[id] {
        JoinCorrect(l, r, off);
      } else if off[id] < off[i] {
        EraseCorrect(l, off, id);
      } else {
        EraseCorrect(r, off, id);
      }
  }

  // ---------- the shape depends only on the set of offsets ----------

  lemma RootFirst(t: Tree, off: seq<nat>, i: nat)
    requires IsTreap(t, off) && i in Ids(t)
    ensures t.Node? && (i == t.id || PrioOf(t.id, off) < PrioOf(i, off))
  {
    hide Prio;
  }

  lemma {:induction false} ShapeUnique(a: Tree, b: Tree, off: seq<nat>)
    requires IsTreap(a, off) && IsTreap(b, off) && Ids(a) == Ids(b)
    ensures a == b
  {
    hide Prio;
    if a.Node? { RootFirst(b, off, a.id); }
    if b.Node? { RootFirst(a, off, b.id); }
    if a.Node? {
      SameSides(a, b, off);
      ShapeUnique(a.left, b.left, off);
      ShapeUnique(a.right, b.right, off);
    }
  }

  lemma SameSides(a: Tree, b: Tree, off: seq<nat>)
    requires IsTreap(a, off) && IsTreap(b, off) && Ids(a) == Ids(b)
    requires a.Node? && b.Node? && a.id == b.id
    ensures Ids(a.left) == Ids(b.left) && Ids(a.right) == Ids(b.right)
  {
    forall i ensures i in Ids(a.left) <==> i in Ids(b.left) {
      assert i in Ids(a) <==> i in Ids(b);
    }
    forall i ensures i in Ids(a.right) <==> i in Ids(b.right) {
      assert i in Ids(a) <==> i in Ids(b);
    }
  }

  ghost predicate Insertable(ids: seq<nat>, off: seq<nat>)
  {
    && (forall k :: 0 <= k < |ids| ==> ids[k] < |off| && off[ids[k]] < WORD)
    && (forall k, m :: 0 <= k < m < |ids| ==> off[ids[k]] != off[ids[m]])
  }

  /** Inserts the ids one at a time, in order, into the empty treap. */
  function Build(ids: seq<nat>, off: seq<nat>): (t: Tree)
    requires Insertable(ids, off)
    ensures forall i :: i in Ids(t) <==> i in ids
  {
    if ids == [] then Leaf
    else
      var n := |ids| - 1;
      assert ids == ids[..n] + [ids[n]];
      Insert(Build(ids[..n], off), off, ids[n])
  }

  lemma {:induction false} BuildCorrect(ids: seq<nat>, off: seq<nat>)
    requires Insertable(ids, off)
    ensures IsTreap(Build(ids, off), off)
  {
    hide PrioOf;
    if ids != [] {
      var n := |ids| - 1;
      BuildCorrect(ids[..n], off);
      InsertCorrect(Build(ids[..n], off), off, ids[n]);
    }
  }

  /** Inserting the same blocks in any order gives the identical tree. */
  lemma InsertionOrderIrrelevant(p: seq<nat>, q: seq<nat>, off: seq<nat>)
    requires Insertable(p, off) && Insertable(q, off)
    requires forall i :: i in p <==> i in q
    ensures Build(p, off) == Build(q, off)
  {
    BuildCorrect(p, off);
    BuildCorrect(q, off);
    assert Ids(Build(p, off)) == Ids(Build(q, off));
    ShapeUnique(Build(p, off), Build(q, off), off);
  }

  /** Erasing what was just inserted gives back the identical tree. */
  lemma EraseUndoesInsert(t: Tree, off: seq<nat>, id: nat)
    requires IsTreap(t, off) && InRange({id}, off) && id !in Ids(t)
    requires forall i :: i in Ids(t) ==> off[i] != off[id]
    ensures Erase(Insert(t, off, id), off, off[id]) == t
  {
    InsertCorrect(t, off, id);
    EraseCorrect(Insert(t, off, id), off, id);
    ShapeUnique(Erase(Insert(t, off, id), off, off[id]), t, off);
  }
}
