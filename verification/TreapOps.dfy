/** The treap operations as the allocator runs them: loops that follow and rewrite
    links in place, each tied to the operation on the tree value. */
module TreapOps {
  import opened Options
  import opened Priority
  import opened Treap
  import opened TreapLinks

  /** Only the children of the given nodes may have changed. */
  ghost predicate Touched(left: seq<nat>, right: seq<nat>, left': seq<nat>, right': seq<nat>, s: set<nat>)
  {
    && |left'| == |left| && |right'| == |right|
    && forall i :: 0 <= i && i !in s ==> SameAt(left, right, left', right', i)
  }

  // ---------- splitting ----------

  /** Midway through a split: `s` is still to be divided, `p` leads down the right spine
      of the smaller half to its open end, and `q` down the left spine of the larger. */
  ghost predicate Spines(left: seq<nat>, right: seq<nat>, root: nat, a: nat, b: nat,
                         leftTail: nat, rightTail: nat, s: Tree, p: Path, q: Path)
  {
    && |left| == |right| <= NIL
    && IsTree(left, right, root, s) && Distinct(s)
    && IsPath(left, right, a, p) && Apart(p)
    && IsPath(left, right, b, q) && Apart(q)
    && PathIds(p) !! PathIds(q) && PathIds(p) !! Ids(s) && PathIds(q) !! Ids(s)
    && (if leftTail == NIL then p.Top? && a == NIL else p.WentRight? && p.id == leftTail)
    && (if rightTail == NIL then q.Top? && b == NIL else q.WentLeft? && q.id == rightTail)
  }

  lemma SpineLeft(left: seq<nat>, right: seq<nat>, root: nat, a: nat, b: nat,
                  leftTail: nat, rightTail: nat, s: Tree, p: Path, q: Path,
                  right': seq<nat>, a': nat)
    requires Spines(left, right, root, a, b, leftTail, rightTail, s, p, q) && s.Node?
    requires if leftTail == NIL then a' == root && right' == right
             else leftTail < |right| && a' == a && right' == right[leftTail := root]
    ensures Spines(left, right', right[root], a', b, root, rightTail,
                   s.right, WentRight(p, s.left, root), q)
  {
    WriteHole(left, right, a, p, root, left, right', a');
    PathFrame(left, right, b, q, left, right');
    TreeFrame(left, right, root, s, left, right');
  }

  lemma SpineRight(left: seq<nat>, right: seq<nat>, root: nat, a: nat, b: nat,
                   leftTail: nat, rightTail: nat, s: Tree, p: Path, q: Path,
                   left': seq<nat>, b': nat)
    requires Spines(left, right, root, a, b, leftTail, rightTail, s, p, q) && s.Node?
    requires if rightTail == NIL then b' == root && left' == left
             else rightTail < |left| && b' == b && left' == left[rightTail := root]
    ensures Spines(left', right, left[root], a, b', leftTail, root,
                   s.left, p, WentLeft(q, root, s.right))
  {
    WriteHole(left, right, b, q, root, left', right, b');
    PathFrame(left, right, a, p, left', right);
    TreeFrame(left, right, root, s, left', right);
  }

  lemma SpinesClosed(left: seq<nat>, right: seq<nat>, a: nat, b: nat,
                     leftTail: nat, rightTail: nat, p: Path, q: Path,
                     left': seq<nat>, right': seq<nat>)
    requires Spines(left, right, NIL, a, b, leftTail, rightTail, Leaf, p, q)
    requires right' == if leftTail < |right| then right[leftTail := NIL] else right
    requires left' == if rightTail < |left| then left[rightTail := NIL] else left
    ensures IsTree(left', right', a, Plug(p, Leaf)) && IsTree(left', right', b, Plug(q, Leaf))
  {
    WriteHole(left, right, a, p, NIL, left, right', a);
    PathFrame(left, right, b, q, left, right');
    WriteHole(left, right', b, q, NIL, left', right', b);
    PathFrame(left, right', a, p, left', right');
    PlugTree(left', right', a, p, Leaf);
    PlugTree(left', right', b, q, Leaf);
  }

  /** What remains to be split, and the paths to the open ends of the two halves. */
  datatype SplitState = SplitState(s: Tree, p: Path, q: Path)

  ghost predicate Splitting(off: seq<nat>, key: nat, t: Tree, left: seq<nat>, right: seq<nat>,
                            root: nat, a: nat, b: nat, leftTail: nat, rightTail: nat, w: SplitState)
  {
    && |off| == |left| && InRange(Ids(t), off)
    && Spines(left, right, root, a, b, leftTail, rightTail, w.s, w.p, w.q)
    && Ids(t) == Ids(w.s) + PathIds(w.p) + PathIds(w.q)
    && Treap.Split(t, off, key)
       == (Plug(w.p, Treap.Split(w.s, off, key).0), Plug(w.q, Treap.Split(w.s, off, key).1))
  }

  lemma SplitRoot(off: seq<nat>, key: nat, t: Tree, left: seq<nat>, right: seq<nat>,
                  root: nat, a: nat, b: nat, leftTail: nat, rightTail: nat, w: SplitState)
    requires Splitting(off, key, t, left, right, root, a, b, leftTail, rightTail, w)
    ensures if root == NIL then w.s.Leaf? else w.s.Node? && w.s.id == root < |left|
    ensures leftTail != NIL ==> leftTail < |left| && leftTail in Ids(t)
    ensures rightTail != NIL ==> rightTail < |left| && rightTail in Ids(t)
    ensures |left| == |right| == |off|
  {
  }

  lemma SplitLeft(off: seq<nat>, key: nat, t: Tree, left: seq<nat>, right: seq<nat>,
                  root: nat, a: nat, b: nat, leftTail: nat, rightTail: nat, w: SplitState,
                  right': seq<nat>, a': nat)
    requires Splitting(off, key, t, left, right, root, a, b, leftTail, rightTail, w)
    requires w.s.Node? && w.s.id == root < |off| && off[root] < key
    requires if leftTail == NIL then a' == root && right' == right
             else leftTail < |right| && a' == a && right' == right[leftTail := root]
    ensures |right| == |off| && Splitting(off, key, t, left, right', right[root], a', b, root, rightTail,
                      SplitState(w.s.right, WentRight(w.p, w.s.left, root), w.q))
  {
    SpineLeft(left, right, root, a, b, leftTail, rightTail, w.s, w.p, w.q, right', a');
    hide Spines, IsTree, IsPath;
  }

  lemma SplitRight(off: seq<nat>, key: nat, t: Tree, left: seq<nat>, right: seq<nat>,
                   root: nat, a: nat, b: nat, leftTail: nat, rightTail: nat, w: SplitState,
                   left': seq<nat>, b': nat)
    requires Splitting(off, key, t, left, right, root, a, b, leftTail, rightTail, w)
    requires w.s.Node? && w.s.id == root < |off| && off[root] >= key
    requires if rightTail == NIL then b' == root && left' == left
             else rightTail < |left| && b' == b && left' == left[rightTail := root]
    ensures |left| == |off| && Splitting(off, key, t, left', right, left[root], a, b', leftTail, root,
                      SplitState(w.s.left, w.p, WentLeft(w.q, root, w.s.right)))
  {
    SpineRight(left, right, root, a, b, leftTail, rightTail, w.s, w.p, w.q, left', b');
    hide Spines, IsTree, IsPath;
  }

  lemma SplitStart(off: seq<nat>, key: nat, t: Tree, left: seq<nat>, right: seq<nat>, start: nat)
    requires |off| == |left| == |right| <= NIL && InRange(Ids(t), off) && Distinct(t)
    requires IsTree(left, right, start, t)
    ensures Splitting(off, key, t, left, right, start, NIL, NIL, NIL, NIL, SplitState(t, Top, Top))
  {
  }

  lemma SplitDone(off: seq<nat>, key: nat, t: Tree, left: seq<nat>, right: seq<nat>, a: nat, b: nat,
                  leftTail: nat, rightTail: nat, w: SplitState, left': seq<nat>, right': seq<nat>)
    requires Splitting(off, key, t, left, right, NIL, a, b, leftTail, rightTail, w)
    requires InRange(Ids(t), off)
    requires right' == if leftTail < |right| then right[leftTail := NIL] else right
    requires left' == if rightTail < |left| then left[rightTail := NIL] else left
    ensures IsTree(left', right', a, Treap.Split(t, off, key).0)
    ensures IsTree(left', right', b, Treap.Split(t, off, key).1)
  {
    SplitRoot(off, key, t, left, right, NIL, a, b, leftTail, rightTail, w);
    SpinesClosed(left, right, a, b, leftTail, rightTail, w.p, w.q, left', right');
  }

  method Split(offset: array<nat>, left: array<nat>, right: array<nat>, start: nat, key: nat, ghost t: Tree)
    returns (a: nat, b: nat)
    requires left != right && left != offset && right != offset
    requires left.Length == right.Length == offset.Length <= NIL
    requires InRange(Ids(t), offset[..]) && Distinct(t)
    requires IsTree(left[..], right[..], start, t)
    modifies left, right
    ensures IsTree(left[..], right[..], a, Treap.Split(t, offset[..], key).0)
    ensures IsTree(left[..], right[..], b, Treap.Split(t, offset[..], key).1)
    ensures Touched(old(left[..]), old(right[..]), left[..], right[..], Ids(t))
  {
    hide Splitting, IsTree, Ids, Treap.Split;
    SplitStart(offset[..], key, t, left[..], right[..], start);
    a, b := NIL, NIL;
    var root: nat, leftTail: nat, rightTail: nat := start, NIL, NIL;
    ghost var w := SplitState(t, Top, Top);
    while root != NIL
      invariant Splitting(offset[..], key, t, left[..], right[..], root, a, b, leftTail, rightTail, w)
      invariant Touched(old(left[..]), old(right[..]), left[..], right[..], Ids(t))
      decreases w.s
    {
      ghost var left0, right0 := left[..], right[..];
      SplitRoot(offset[..], key, t, left0, right0, root, a, b, leftTail, rightTail, w);
      if offset[root] < key {
        var next := right[root];
        ghost var a0 := a;
        if leftTail == NIL {
          a := root;
        } else {
          right[leftTail] := root;
        }
        SplitLeft(offset[..], key, t, left0, right0, root, a0, b, leftTail, rightTail, w, right[..], a);
        w := SplitState(w.s.right, WentRight(w.p, w.s.left, root), w.q);
        leftTail := root;
        root := next;
      } else {
        var next := left[root];
        ghost var b0 := b;
        if rightTail == NIL {
          b := root;
        } else {
          left[rightTail] := root;
        }
        SplitRight(offset[..], key, t, left0, right0, root, a, b0, leftTail, rightTail, w, left[..], b);
        w := SplitState(w.s.left, w.p, WentLeft(w.q, root, w.s.right));
        rightTail := root;
        root := next;
      }
    }
    ghost var left0, right0 := left[..], right[..];
    SplitRoot(offset[..], key, t, left0, right0, root, a, b, leftTail, rightTail, w);
    if leftTail != NIL {
      right[leftTail] := NIL;
    }
    if rightTail != NIL {
      left[rightTail] := NIL;
    }
    SplitDone(offset[..], key, t, left0, right0, a, b, leftTail, rightTail, w, left[..], right[..]);
  }

  // ---------- following links ----------

  /** `s` hangs from the link at the end of `p`, and together they hold the ids of `t`. */
  ghost predicate Walking(left: seq<nat>, right: seq<nat>, root: nat, t: Tree, s: Tree, p: Path)
  {
    && |left| == |right| <= NIL
    && IsPath(left, right, root, p) && Apart(p)
    && IsTree(left, right, Deref(left, right, root, Hole(p)), s) && Distinct(s)
    && PathIds(p) !! Ids(s) && Ids(t) == PathIds(p) + Ids(s)
  }

  lemma WalkStart(left: seq<nat>, right: seq<nat>, root: nat, t: Tree)
    requires |left| == |right| <= NIL && IsTree(left, right, root, t) && Distinct(t)
    ensures Walking(left, right, root, t, t, Top)
  {
  }

  lemma WalkAt(left: seq<nat>, right: seq<nat>, root: nat, t: Tree, s: Tree, p: Path)
    requires Walking(left, right, root, t, s, p)
    ensures |left| == |right| && ValidLink(|left|, Hole(p))
    ensures var i := Deref(left, right, root, Hole(p));
      if i == NIL then s.Leaf? else s.Node? && i == s.id < |left| && i in Ids(t)
    ensures Hole(p).RootLink? || Hole(p).node in Ids(t)
    ensures IsTree(left, right, Deref(left, right, root, Hole(p)), s) && Distinct(s) && Ids(s) <= Ids(t)
  {
  }

  lemma WalkDown(left: seq<nat>, right: seq<nat>, root: nat, t: Tree, s: Tree, p: Path)
    requires Walking(left, right, root, t, s, p) && s.Node?
    ensures Walking(left, right, root, t, s.left, WentLeft(p, s.id, s.right))
    ensures Walking(left, right, root, t, s.right, WentRight(p, s.left, s.id))
  {
  }

  /** Rewriting only below the link, and then the link itself, replaces the subtree there. */
  lemma WalkReplace(left: seq<nat>, right: seq<nat>, root: nat, t: Tree, s: Tree, p: Path,
                    left': seq<nat>, right': seq<nat>, v: nat, s': Tree,
                    left'': seq<nat>, right'': seq<nat>, root': nat)
    requires Walking(left, right, root, t, s, p)
    requires |left'| == |right'| == |left| && ValidLink(|left'|, Hole(p))
    requires forall i :: i in PathIds(p) ==> SameAt(left, right, left', right', i)
    requires IsTree(left', right', v, s') && Ids(s') !! PathIds(p)
    requires Written(left', right', root, Hole(p), v, left'', right'', root')
    ensures IsPath(left'', right'', root', p)
    ensures Deref(left'', right'', root', Hole(p)) == v && IsTree(left'', right'', v, s')
    ensures IsTree(left'', right'', root', Plug(p, s'))
  {
    PathFrame(left, right, root, p, left', right');
    WriteHole(left', right', root, p, v, left'', right'', root');
    TreeFrame(left', right', v, s', left'', right'');
    PlugTree(left'', right'', root', p, s');
  }

  // ---------- inserting ----------

  ghost predicate Inserting(off: seq<nat>, id: nat, t: Tree, s: Tree, p: Path)
  {
    && InRange(Ids(t), off) && InRange(Ids(s), off) && id < |off| && id !in Ids(t)
    && Treap.Insert(t, off, id) == Plug(p, Treap.Insert(s, off, id))
  }

  lemma InsertStart(off: seq<nat>, id: nat, t: Tree)
    requires InRange(Ids(t), off) && id < |off| && id !in Ids(t)
    ensures Inserting(off, id, t, t, Top)
  {
  }

  lemma InsertDown(off: seq<nat>, id: nat, t: Tree, s: Tree, p: Path)
    requires Inserting(off, id, t, s, p) && s.Node? && s.id < |off| && PrioOf(id, off) >= PrioOf(s.id, off)
    ensures if off[id] < off[s.id] then Inserting(off, id, t, s.left, WentLeft(p, s.id, s.right))
            else Inserting(off, id, t, s.right, WentRight(p, s.left, s.id))
  {
    hide PrioOf;
  }

  /** At the final link the new node takes the place of the subtree, which has been split. */
  lemma InsertHere(off: seq<nat>, id: nat, t: Tree, s: Tree, p: Path,
                   left: seq<nat>, right: seq<nat>, root: nat, left': seq<nat>, right': seq<nat>,
                   left'': seq<nat>, right'': seq<nat>, root': nat)
    requires Inserting(off, id, t, s, p) && Walking(left, right, root, t, s, p)
    requires s.Leaf? || (s.id < |off| && PrioOf(id, off) < PrioOf(s.id, off))
    requires |left'| == |right'| == |left| == |off|
    requires InRange(Ids(s), off)
    requires forall i :: 0 <= i && i !in Ids(s) + {id} ==> SameAt(left, right, left', right', i)
    requires IsTree(left', right', left'[id], Treap.Split(s, off, off[id]).0)
    requires IsTree(left', right', right'[id], Treap.Split(s, off, off[id]).1)
    requires ValidLink(|left'|, Hole(p)) && Written(left', right', root, Hole(p), id, left'', right'', root')
    ensures IsTree(left'', right'', root', Treap.Insert(t, off, id))
  {
    hide PrioOf;
    var (a, b) := Treap.Split(s, off, off[id]);
    assert Treap.Insert(s, off, id) == Node(a, id, b);
    WalkReplace(left, right, root, t, s, p, left', right', id, Node(a, id, b), left'', right'', root');
  }

  lemma SplitLeaf(off: seq<nat>, key: nat, left: seq<nat>, right: seq<nat>)
    ensures Ids(Leaf) == {} && Treap.Split(Leaf, off, key) == (Leaf, Leaf) && IsTree(left, right, NIL, Leaf)
  {
  }

  lemma TouchedTwice(l0: seq<nat>, r0: seq<nat>, l1: seq<nat>, r1: seq<nat>, l2: seq<nat>, r2: seq<nat>,
                     s: set<nat>, s': set<nat>)
    requires Touched(l0, r0, l1, r1, s) && Touched(l1, r1, l2, r2, s') && s' <= s
    requires |l0| == |r0|
    ensures Touched(l0, r0, l2, r2, s)
  {
    forall i | 0 <= i && i !in s ensures SameAt(l0, r0, l2, r2, i) {
      assert SameAt(l0, r0, l1, r1, i) && SameAt(l1, r1, l2, r2, i);
    }
  }

  lemma WriteTouches(left: seq<nat>, right: seq<nat>, root: nat, link: Link, v: nat,
                     left': seq<nat>, right': seq<nat>, root': nat, s: set<nat>)
    requires |left| == |right| && ValidLink(|left|, link)
    requires Written(left, right, root, link, v, left', right', root')
    requires link.RootLink? || link.node in s
    ensures Touched(left, right, left', right', s)
  {
  }

  method Insert(offset: array<nat>, left: array<nat>, right: array<nat>, start: nat, id: nat, ghost t: Tree)
    returns (root: nat)
    requires left != right && left != offset && right != offset
    requires left.Length == right.Length == offset.Length <= NIL
    requires InRange(Ids(t), offset[..]) && Distinct(t)
    requires IsTree(left[..], right[..], start, t)
    requires id < offset.Length && id !in Ids(t)
    modifies left, right
    ensures IsTree(left[..], right[..], root, Treap.Insert(t, offset[..], id))
    ensures Touched(old(left[..]), old(right[..]), left[..], right[..], Ids(t) + {id})
  {
    hide Prio, Walking, IsTree, Ids, Inserting, Treap.Insert, Treap.Split;
    var key := offset[id];
    var priority := Prio(key);
    left[id] := NIL;
    right[id] := NIL;
    ghost var off, left0, right0 := offset[..], left[..], right[..];
    TreeFrame(old(left[..]), old(right[..]), start, t, left0, right0);
    root := start;
    var link := RootLink;
    ghost var s, p := t, Top;
    WalkStart(left0, right0, root, t);
    InsertStart(off, id, t);
    while Deref(left[..], right[..], root, link) != NIL
      invariant root == start && link == Hole(p) && ValidLink(left.Length, link)
      invariant left[..] == left0 && right[..] == right0
      invariant Walking(left0, right0, root, t, s, p)
      invariant Inserting(off, id, t, s, p)
      decreases s
    {
      var curr := Deref(left[..], right[..], root, link);
      WalkAt(left0, right0, root, t, s, p);
      if priority < Prio(offset[curr]) {
        var a, b := Split(offset, left, right, curr, key, s);
        ghost var left1, right1 := left[..], right[..];
        left[id] := a;
        right[id] := b;
        ghost var left2, right2 := left[..], right[..];
        TreeFrame(left1, right1, a, Treap.Split(s, off, key).0, left2, right2);
        TreeFrame(left1, right1, b, Treap.Split(s, off, key).1, left2, right2);
        root := Store(left, right, root, link, id);
        InsertHere(off, id, t, s, p, left0, right0, start, left2, right2, left[..], right[..], root);
        return;
      }
      WalkDown(left0, right0, root, t, s, p);
      InsertDown(off, id, t, s, p);
      if key < offset[curr] {
        link := LeftLink(curr);
        p, s := WentLeft(p, curr, s.right), s.left;
      } else {
        link := RightLink(curr);
        p, s := WentRight(p, s.left, curr), s.right;
      }
    }
    WalkAt(left0, right0, root, t, s, p);
    SplitLeaf(off, key, left0, right0);
    root := Store(left, right, root, link, id);
    InsertHere(off, id, t, s, p, left0, right0, start, left0, right0, left[..], right[..], root);
  }

  // ---------- erasing ----------

  ghost predicate Erasing(off: seq<nat>, key: nat, t: Tree, s: Tree, p: Path)
  {
    && InRange(Ids(t), off) && InRange(Ids(s), off)
    && Treap.Erase(t, off, key) == Plug(p, Treap.Erase(s, off, key))
  }

  /** The node is found; the trees on its two sides are still to be merged. */
  ghost predicate Sinking(off: seq<nat>, key: nat, t: Tree, s: Tree, p: Path)
  {
    && InRange(Ids(t), off) && InRange(Ids(s), off) && s.Node?
    && Treap.Erase(t, off, key) == Plug(p, Join(s.left, s.right, off))
  }

  lemma EraseStart(off: seq<nat>, key: nat, t: Tree)
    requires InRange(Ids(t), off)
    ensures Erasing(off, key, t, t, Top)
  {
  }

  lemma EraseDown(off: seq<nat>, key: nat, t: Tree, s: Tree, p: Path)
    requires Erasing(off, key, t, s, p) && s.Node? && s.id < |off|
    ensures if key < off[s.id] then Erasing(off, key, t, s.left, WentLeft(p, s.id, s.right))
            else if off[s.id] == key then Sinking(off, key, t, s, p)
            else Erasing(off, key, t, s.right, WentRight(p, s.left, s.id))
  {
  }

  lemma EraseMissing(off: seq<nat>, key: nat, t: Tree, p: Path,
                     left: seq<nat>, right: seq<nat>, root: nat)
    requires Erasing(off, key, t, Leaf, p) && Walking(left, right, root, t, Leaf, p)
    ensures IsTree(left, right, root, Treap.Erase(t, off, key))
  {
    PlugTree(left, right, root, p, Leaf);
  }

  lemma SinkDown(off: seq<nat>, key: nat, t: Tree, s: Tree, p: Path)
    requires Sinking(off, key, t, s, p) && s.left.Node? && s.right.Node?
    requires s.left.id < |off| && s.right.id < |off|
    ensures var (l, r) := (s.left, s.right);
      if PrioOf(l.id, off) < PrioOf(r.id, off)
      then Sinking(off, key, t, Node(l.right, s.id, r), WentRight(p, l.left, l.id))
      else Sinking(off, key, t, Node(l, s.id, r.left), WentLeft(p, r.id, r.right))
  {
    hide PrioOf;
  }

  ghost function Size(t: Tree): nat
  {
    match t
    case Leaf => 0
    case Node(l, _, r) => Size(l) + 1 + Size(r)
  }

  lemma Children(left: seq<nat>, right: seq<nat>, root: nat, t: Tree, s: Tree, p: Path)
    requires Walking(left, right, root, t, s, p) && s.Node?
    ensures s.id < |left| == |right|
    ensures if left[s.id] == NIL then s.left.Leaf?
            else s.left.Node? && s.left.id == left[s.id] < |left| && s.left.id in Ids(t)
    ensures if right[s.id] == NIL then s.right.Leaf?
            else s.right.Node? && s.right.id == right[s.id] < |left| && s.right.id in Ids(t)
    ensures IsTree(left, right, left[s.id], s.left) && IsTree(left, right, right[s.id], s.right)
    ensures s.id !in PathIds(p)
  {
    assert IsTree(left, right, left[s.id], s.left);
    assert IsTree(left, right, right[s.id], s.right);
  }

  lemma Grandchildren(left: seq<nat>, right: seq<nat>, s: Tree)
    requires |left| == |right| && s.Node? && IsTree(left, right, s.id, s) && Distinct(s)
    ensures s.left.Node? ==> (
      && s.left.id < |left|
      && IsTree(left, right, left[s.left.id], s.left.left) && IsTree(left, right, right[s.left.id], s.left.right)
      && s.id != s.left.id && s.left.id !in Ids(s.left.left) + Ids(s.left.right) + Ids(s.right)
      && s.id !in Ids(s.left.left) + Ids(s.left.right) + Ids(s.right))
    ensures s.right.Node? ==> (
      && s.right.id < |left|
      && IsTree(left, right, left[s.right.id], s.right.left) && IsTree(left, right, right[s.right.id], s.right.right)
      && s.id != s.right.id && s.right.id !in Ids(s.right.left) + Ids(s.right.right) + Ids(s.left)
      && s.id !in Ids(s.right.left) + Ids(s.right.right) + Ids(s.left))
  {
    assert s.left.Node? ==> s.left.id in Ids(s.left);
    assert s.right.Node? ==> s.right.id in Ids(s.right);
  }

  lemma RotateTreeRight(left: seq<nat>, right: seq<nat>, s: Tree, left': seq<nat>, right': seq<nat>)
    requires |left| == |right| <= NIL && s.Node? && s.left.Node?
    requires IsTree(left, right, s.id, s) && Distinct(s)
    requires s.id < |left| && s.left.id < |left|
    requires left' == left[s.id := right[s.left.id]] && right' == right[s.left.id := s.id]
    ensures IsTree(left', right', s.left.id, Node(s.left.left, s.left.id, Node(s.left.right, s.id, s.right)))
    ensures Distinct(Node(s.left.left, s.left.id, Node(s.left.right, s.id, s.right)))
  {
    Grandchildren(left, right, s);
    var (x, y) := (s.id, s.left.id);
    TreeFrame(left, right, left[y], s.left.left, left', right');
    TreeFrame(left, right, right[y], s.left.right, left', right');
    TreeFrame(left, right, right[x], s.right, left', right');
  }

  lemma RotateTreeLeft(left: seq<nat>, right: seq<nat>, s: Tree, left': seq<nat>, right': seq<nat>)
    requires |left| == |right| <= NIL && s.Node? && s.right.Node?
    requires IsTree(left, right, s.id, s) && Distinct(s)
    requires s.id < |left| && s.right.id < |left|
    requires left' == left[s.right.id := s.id] && right' == right[s.id := left[s.right.id]]
    ensures IsTree(left', right', s.right.id, Node(Node(s.left, s.id, s.right.left), s.right.id, s.right.right))
    ensures Distinct(Node(Node(s.left, s.id, s.right.left), s.right.id, s.right.right))
  {
    Grandchildren(left, right, s);
    var (x, y) := (s.id, s.right.id);
    TreeFrame(left, right, left[x], s.left, left', right');
    TreeFrame(left, right, left[y], s.right.left, left', right');
    TreeFrame(left, right, right[y], s.right.right, left', right');
  }

  /** A rotated subtree with the same ids may hang from the same link. */
  lemma WalkRotated(left: seq<nat>, right: seq<nat>, root: nat, t: Tree, s: Tree, p: Path,
                    left': seq<nat>, right': seq<nat>, s': Tree,
                    left'': seq<nat>, right'': seq<nat>, root': nat)
    requires Walking(left, right, root, t, s, p) && s'.Node? && Ids(s') == Ids(s) && Distinct(s')
    requires |left'| == |right'| == |left| && ValidLink(|left'|, Hole(p))
    requires forall i :: 0 <= i && i !in Ids(s) ==> SameAt(left, right, left', right', i)
    requires IsTree(left', right', s'.id, s')
    requires Written(left', right', root, Hole(p), s'.id, left'', right'', root')
    ensures Walking(left'', right'', root', t, s', p)
  {
    hide IsPath, IsTree, Ids, Distinct;
    WalkReplace(left, right, root, t, s, p, left', right', s'.id, s', left'', right'', root');
  }

  lemma RotateRight(left: seq<nat>, right: seq<nat>, root: nat, t: Tree, s: Tree, p: Path,
                    left': seq<nat>, right': seq<nat>, left'': seq<nat>, right'': seq<nat>, root': nat)
    requires Walking(left, right, root, t, s, p) && s.Node? && s.left.Node?
    requires s.id < |left| && s.left.id < |right| && |left'| == |right'| == |left|
    requires left' == left[s.id := right[s.left.id]] && right' == right[s.left.id := s.id]
    requires ValidLink(|left'|, Hole(p))
    requires Written(left', right', root, Hole(p), s.left.id, left'', right'', root')
    ensures Walking(left'', right'', root', t, Node(s.left.right, s.id, s.right),
                    WentRight(p, s.left.left, s.left.id))
    ensures Size(Node(s.left.right, s.id, s.right)) < Size(s)
  {
    WalkAt(left, right, root, t, s, p);
    var s' := Node(s.left.left, s.left.id, Node(s.left.right, s.id, s.right));
    assert Ids(s') == Ids(s) && s.id in Ids(s) && s.left.id in Ids(s);
    hide Walking, IsTree, Distinct, Ids;
    RotateTreeRight(left, right, s, left', right');
    WalkRotated(left, right, root, t, s, p, left', right', s', left'', right'', root');
    WalkDown(left'', right'', root', t, s', p);
  }

  lemma RotateLeft(left: seq<nat>, right: seq<nat>, root: nat, t: Tree, s: Tree, p: Path,
                   left': seq<nat>, right': seq<nat>, left'': seq<nat>, right'': seq<nat>, root': nat)
    requires Walking(left, right, root, t, s, p) && s.Node? && s.right.Node?
    requires s.id < |left| && s.right.id < |right| && |left'| == |right'| == |left|
    requires left' == left[s.right.id := s.id] && right' == right[s.id := left[s.right.id]]
    requires ValidLink(|left'|, Hole(p))
    requires Written(left', right', root, Hole(p), s.right.id, left'', right'', root')
    ensures Walking(left'', right'', root', t, Node(s.left, s.id, s.right.left),
                    WentLeft(p, s.right.id, s.right.right))
    ensures Size(Node(s.left, s.id, s.right.left)) < Size(s)
  {
    WalkAt(left, right, root, t, s, p);
    var s' := Node(Node(s.left, s.id, s.right.left), s.right.id, s.right.right);
    assert Ids(s') == Ids(s) && s.id in Ids(s) && s.right.id in Ids(s);
    hide Walking, IsTree, Distinct, Ids;
    RotateTreeLeft(left, right, s, left', right');
    WalkRotated(left, right, root, t, s, p, left', right', s', left'', right'', root');
    WalkDown(left'', right'', root', t, s', p);
  }

  /** With a side empty, the other side takes the erased node's place. */
  lemma Splice(off: seq<nat>, key: nat, t: Tree, s: Tree, p: Path,
               left: seq<nat>, right: seq<nat>, root: nat,
               left': seq<nat>, right': seq<nat>, root': nat, left'': seq<nat>, right'': seq<nat>)
    requires Sinking(off, key, t, s, p) && Walking(left, right, root, t, s, p)
    requires s.id < |left| && (left[s.id] == NIL || right[s.id] == NIL)
    requires |left| == |right| && ValidLink(|left|, Hole(p))
    requires Written(left, right, root, Hole(p), if left[s.id] == NIL then right[s.id] else left[s.id],
                     left', right', root')
    requires |left'| == |right'| && s.id < |left'|
    requires left'' == left'[s.id := NIL] && right'' == right'[s.id := NIL]
    ensures IsTree(left'', right'', root', Treap.Erase(t, off, key))
  {
    var (v, s') := if left[s.id] == NIL then (right[s.id], s.right) else (left[s.id], s.left);
    Children(left, right, root, t, s, p);
    assert Join(s.left, s.right, off) == s';
    WalkReplace(left, right, root, t, s, p, left, right, v, s', left', right', root');
    PlugIds(p, s');
    TreeFrame(left', right', root', Plug(p, s'), left'', right'');
  }

  lemma RotateTouches(l0: seq<nat>, r0: seq<nat>, l: seq<nat>, r: seq<nat>, x: nat, u: nat, y: nat, v: nat,
                      root: nat, link: Link, w: nat, l': seq<nat>, r': seq<nat>, root': nat, s: set<nat>)
    requires Touched(l0, r0, l, r, s) && |l0| == |r0| && x < |l| && y < |r| && x in s && y in s
    requires ValidLink(|l|, link) && (link.RootLink? || link.node in s)
    requires Written(l[x := u], r[y := v], root, link, w, l', r', root')
    ensures Touched(l0, r0, l', r', s)
  {
    assert Touched(l, r, l[x := u], r[y := v], s);
    WriteTouches(l[x := u], r[y := v], root, link, w, l', r', root', s);
    TouchedTwice(l, r, l[x := u], r[y := v], l', r', s, s);
    TouchedTwice(l0, r0, l, r, l', r', s, s);
  }

  lemma SpliceTouches(l0: seq<nat>, r0: seq<nat>, l: seq<nat>, r: seq<nat>, x: nat,
                      root: nat, link: Link, w: nat, l': seq<nat>, r': seq<nat>, root': nat, s: set<nat>)
    requires Touched(l0, r0, l, r, s) && |l0| == |r0| && x < |l| && x in s
    requires ValidLink(|l|, link) && (link.RootLink? || link.node in s)
    requires Written(l, r, root, link, w, l', r', root')
    ensures Touched(l0, r0, l'[x := NIL], r'[x := NIL], s)
  {
    WriteTouches(l, r, root, link, w, l', r', root', s);
    assert Touched(l', r', l'[x := NIL], r'[x := NIL], s);
    TouchedTwice(l, r, l', r', l'[x := NIL], r'[x := NIL], s, s);
    TouchedTwice(l0, r0, l, r, l'[x := NIL], r'[x := NIL], s, s);
  }

  /** A node with at most one child gives way to it. */
  method SpliceOut(offset: array<nat>, left: array<nat>, right: array<nat>, start: nat, link: Link, x: nat,
                   ghost key: nat, ghost t: Tree, ghost s: Tree, ghost p: Path)
    returns (root: nat)
    requires left != right && left != offset && right != offset
    requires left.Length == right.Length == offset.Length <= NIL
    requires link == Hole(p) && ValidLink(left.Length, link) && s.Node?
    requires Walking(left[..], right[..], start, t, s, p) && Sinking(offset[..], key, t, s, p)
    requires x == Deref(left[..], right[..], start, link) && x < left.Length && (left[x] == NIL || right[x] == NIL)
    modifies left, right
    ensures InRange(Ids(t), offset[..])
    ensures IsTree(left[..], right[..], root, Treap.Erase(t, offset[..], key))
    ensures Touched(old(left[..]), old(right[..]), left[..], right[..], Ids(t))
  {
    assert InRange(Ids(t), offset[..]);
    ghost var off, left0, right0 := offset[..], left[..], right[..];
    assert Touched(left0, right0, left0, right0, Ids(t));
    hide Walking, IsTree, Ids, Sinking, Treap.Erase, Prio, Size, Touched;
    WalkAt(left0, right0, start, t, s, p);
    Children(left0, right0, start, t, s, p);
    var only := if left[x] == NIL then right[x] else left[x];
    root := Store(left, right, start, link, only);
    ghost var left1, right1 := left[..], right[..];
    left[x] := NIL;
    right[x] := NIL;
    SpliceTouches(left0, right0, left0, right0, x, start, link, only, left1, right1, root, Ids(t));
    Splice(off, key, t, s, p, left0, right0, start, left1, right1, root, left[..], right[..]);
  }

  /** Rotates the node at `at` down until a side is empty, then unlinks it. */
  method SinkAndSplice(offset: array<nat>, left: array<nat>, right: array<nat>, start: nat, at: Link,
                       ghost key: nat, ghost t: Tree, ghost sub: Tree, ghost path: Path)
    returns (root: nat)
    requires left != right && left != offset && right != offset
    requires left.Length == right.Length == offset.Length <= NIL
    requires at == Hole(path) && ValidLink(left.Length, at)
    requires Walking(left[..], right[..], start, t, sub, path) && Sinking(offset[..], key, t, sub, path)
    modifies left, right
    ensures InRange(Ids(t), offset[..])
    ensures IsTree(left[..], right[..], root, Treap.Erase(t, offset[..], key))
    ensures Touched(old(left[..]), old(right[..]), left[..], right[..], Ids(t))
  {
    assert InRange(Ids(t), offset[..]) && sub.Node?;
    ghost var off, leftIn, rightIn := offset[..], left[..], right[..];
    assert Touched(leftIn, rightIn, left[..], right[..], Ids(t));
    hide Walking, IsTree, Ids, Sinking, Treap.Erase, Prio, Size, Touched;
    root := start;
    var link := at;
    ghost var s, p := sub, path;
    while true
      invariant link == Hole(p) && ValidLink(left.Length, link)
      invariant Walking(left[..], right[..], root, t, s, p) && Sinking(off, key, t, s, p) && s.Node?
      invariant Touched(leftIn, rightIn, left[..], right[..], Ids(t))
      decreases Size(s)
    {
      ghost var left0, right0, root0 := left[..], right[..], root;
      WalkAt(left0, right0, root, t, s, p);
      var x := Deref(left[..], right[..], root, link);
      Children(left0, right0, root, t, s, p);
      if left[x] == NIL || right[x] == NIL {
        root := SpliceOut(offset, left, right, root, link, x, key, t, s, p);
        TouchedTwice(leftIn, rightIn, left0, right0, left[..], right[..], Ids(t), Ids(t));
        return;
      }
      SinkDown(off, key, t, s, p);
      if Prio(offset[left[x]]) < Prio(offset[right[x]]) {
        var y := left[x];
        left[x] := right[y];
        right[y] := x;
        ghost var left1, right1 := left[..], right[..];
        root := Store(left, right, root, link, y);
        RotateTouches(leftIn, rightIn, left0, right0, x, right0[y], y, x, root0, link, y, left[..], right[..], root,
            Ids(t));
        RotateRight(left0, right0, root0, t, s, p, left1, right1, left[..], right[..], root);
        link := RightLink(y);
        p, s := WentRight(p, s.left.left, y), Node(s.left.right, x, s.right);
      } else {
        var y := right[x];
        right[x] := left[y];
        left[y] := x;
        ghost var left1, right1 := left[..], right[..];
        root := Store(left, right, root, link, y);
        RotateTouches(leftIn, rightIn, left0, right0, y, x, x, left0[y], root0, link, y, left[..], right[..], root,
            Ids(t));
        RotateLeft(left0, right0, root0, t, s, p, left1, right1, left[..], right[..], root);
        link := LeftLink(y);
        p, s := WentLeft(p, y, s.right.right), Node(s.left, x, s.right.left);
      }
    }
  }

  method Erase(offset: array<nat>, left: array<nat>, right: array<nat>, start: nat, id: nat, ghost t: Tree)
    returns (root: nat)
    requires left != right && left != offset && right != offset
    requires left.Length == right.Length == offset.Length <= NIL
    requires InRange(Ids(t), offset[..]) && Distinct(t)
    requires IsTree(left[..], right[..], start, t) && id < offset.Length
    modifies left, right
    ensures IsTree(left[..], right[..], root, Treap.Erase(t, offset[..], offset[id]))
    ensures Touched(old(left[..]), old(right[..]), left[..], right[..], Ids(t))
  {
    hide Walking, IsTree, Ids, Erasing, Sinking, Treap.Erase, Prio, Size;
    var key := offset[id];
    ghost var off := offset[..];
    root := start;
    var link := RootLink;
    ghost var s, p := t, Top;
    WalkStart(left[..], right[..], root, t);
    EraseStart(off, key, t);
    while true
      invariant root == start && link == Hole(p) && ValidLink(left.Length, link)
      invariant left[..] == old(left[..]) && right[..] == old(right[..])
      invariant Walking(left[..], right[..], root, t, s, p) && Erasing(off, key, t, s, p)
      decreases s
    {
      WalkAt(left[..], right[..], root, t, s, p);
      var curr := Deref(left[..], right[..], root, link);
      if curr == NIL {
        EraseMissing(off, key, t, p, left[..], right[..], root);
        return;
      }
      EraseDown(off, key, t, s, p);
      if offset[curr] == key {
        break;
      }
      WalkDown(left[..], right[..], root, t, s, p);
      if key < offset[curr] {
        link := LeftLink(curr);
        p, s := WentLeft(p, curr, s.right), s.left;
      } else {
        link := RightLink(curr);
        p, s := WentRight(p, s.left, curr), s.right;
      }
    }
    root := SinkAndSplice(offset, left, right, root, link, key, t, s, p);
  }

  // ---------- neighbours ----------

  /** `best` is the member of `t` with the greatest offset below `key`, or NIL. */
  ghost predicate IsPrev(t: Tree, off: seq<nat>, key: nat, best: nat)
    requires InRange(Ids(t), off)
  {
    if best == NIL then forall i :: i in Ids(t) ==> off[i] >= key
    else best in Ids(t) && off[best] < key
         && forall i :: i in Ids(t) && off[i] < key ==> off[i] <= off[best]
  }

  /** `best` is the member of `t` with the least offset at or above `key`, or NIL. */
  ghost predicate IsNext(t: Tree, off: seq<nat>, key: nat, best: nat)
    requires InRange(Ids(t), off)
  {
    if best == NIL then forall i :: i in Ids(t) ==> off[i] < key
    else best in Ids(t) && off[best] >= key
         && forall i :: i in Ids(t) && off[i] >= key ==> off[i] >= off[best]
  }

  method Prev(offset: array<nat>, left: array<nat>, right: array<nat>, start: nat, key: nat, ghost t: Tree)
    returns (best: nat)
    requires left.Length == right.Length == offset.Length <= NIL
    requires InRange(Ids(t), offset[..]) && Bst(t, offset[..])
    requires IsTree(left[..], right[..], start, t)
    ensures IsPrev(t, offset[..], key, best)
  {
    ghost var off := offset[..];
    best := NIL;
    var root := start;
    ghost var s := t;
    while root != NIL
      invariant IsTree(left[..], right[..], root, s) && Ids(s) <= Ids(t) && Bst(s, off)
      invariant best != NIL ==> best in Ids(t) && off[best] < key && Above(Ids(s), off, off[best])
      invariant forall i :: i in Ids(t) && i !in Ids(s) && off[i] < key ==> best != NIL && off[i] <= off[best]
      decreases s
    {
      if offset[root] < key {
        best := root;
        root := right[root];
        s := s.right;
      } else {
        root := left[root];
        s := s.left;
      }
    }
  }

  method Next(offset: array<nat>, left: array<nat>, right: array<nat>, start: nat, key: nat, ghost t: Tree)
    returns (best: nat)
    requires left.Length == right.Length == offset.Length <= NIL
    requires InRange(Ids(t), offset[..]) && Bst(t, offset[..])
    requires IsTree(left[..], right[..], start, t)
    ensures IsNext(t, offset[..], key, best)
  {
    ghost var off := offset[..];
    best := NIL;
    var root := start;
    ghost var s := t;
    while root != NIL
      invariant IsTree(left[..], right[..], root, s) && Ids(s) <= Ids(t) && Bst(s, off)
      invariant best != NIL ==> best in Ids(t) && off[best] >= key && Below(Ids(s), off, off[best])
      invariant forall i :: i in Ids(t) && i !in Ids(s) && off[i] >= key ==> best != NIL && off[i] >= off[best]
      decreases s
    {
      if offset[root] >= key {
        best := root;
        root := left[root];
        s := s.left;
      } else {
        root := right[root];
        s := s.right;
      }
    }
  }
}
