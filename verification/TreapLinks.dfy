/** The treap as the allocator stores it: child ids in two parallel arrays, walked
    and rewritten in place through a pointer to the link being followed. */
module TreapLinks {
  import opened Options
  import opened Priority
  import opened Treap

  /** The links below `root` spell out the tree `t`. */
  ghost predicate IsTree(left: seq<nat>, right: seq<nat>, root: nat, t: Tree)
    decreases t
  {
    match t
    case Leaf => root == NIL
    case Node(l, i, r) =>
      root == i && i < |left| == |right| <= NIL
      && IsTree(left, right, left[i], l) && IsTree(left, right, right[i], r)
  }

  ghost predicate Distinct(t: Tree)
  {
    match t
    case Leaf => true
    case Node(l, i, r) =>
      Distinct(l) && Distinct(r) && i !in Ids(l) && i !in Ids(r) && Ids(l) !! Ids(r)
  }

  lemma {:induction false} BstDistinct(t: Tree, off: seq<nat>)
    requires InRange(Ids(t), off) && Bst(t, off)
    ensures Distinct(t)
  {
    match t
    case Leaf =>
    case Node(l, i, r) =>
      BstDistinct(l, off);
      BstDistinct(r, off);
  }

  // ---------- pointers to links ----------

  /** A place that holds a node id: the caller's root, or a child of a node. */
  datatype Link = RootLink | LeftLink(node: nat) | RightLink(node: nat)

  predicate ValidLink(n: nat, link: Link)
  {
    link.RootLink? || link.node < n
  }

  function Deref(left: seq<nat>, right: seq<nat>, root: nat, link: Link): nat
    requires |left| == |right| && ValidLink(|left|, link)
  {
    match link
    case RootLink => root
    case LeftLink(i) => left[i]
    case RightLink(i) => right[i]
  }

  ghost predicate Written(left: seq<nat>, right: seq<nat>, root: nat, link: Link, v: nat,
                          left': seq<nat>, right': seq<nat>, root': nat)
    requires |left| == |right| && ValidLink(|left|, link)
  {
    match link
    case RootLink => left' == left && right' == right && root' == v
    case LeftLink(i) => left' == left[i := v] && right' == right && root' == root
    case RightLink(i) => left' == left && right' == right[i := v] && root' == root
  }

  method Store(left: array<nat>, right: array<nat>, root: nat, link: Link, v: nat)
    returns (root': nat)
    requires left != right && left.Length == right.Length && ValidLink(left.Length, link)
    modifies left, right
    ensures Written(old(left[..]), old(right[..]), root, link, v, left[..], right[..], root')
  {
    root' := root;
    match link
    case RootLink => root' := v;
    case LeftLink(i) => left[i] := v;
    case RightLink(i) => right[i] := v;
  }

  // ---------- the part of the tree above a link ----------

  datatype Path =
    | Top
    | WentLeft(up: Path, id: nat, right: Tree)
    | WentRight(up: Path, left: Tree, id: nat)

  function Hole(p: Path): Link
  {
    match p
    case Top => RootLink
    case WentLeft(_, i, _) => LeftLink(i)
    case WentRight(_, _, i) => RightLink(i)
  }

  ghost function Plug(p: Path, t: Tree): Tree
  {
    match p
    case Top => t
    case WentLeft(up, i, r) => Plug(up, Node(t, i, r))
    case WentRight(up, l, i) => Plug(up, Node(l, i, t))
  }

  ghost function PathIds(p: Path): set<nat>
  {
    match p
    case Top => {}
    case WentLeft(up, i, r) => PathIds(up) + {i} + Ids(r)
    case WentRight(up, l, i) => PathIds(up) + {i} + Ids(l)
  }

  ghost predicate Apart(p: Path)
  {
    match p
    case Top => true
    case WentLeft(up, i, r) =>
      Apart(up) && i !in PathIds(up) && i !in Ids(r) && PathIds(up) !! Ids(r)
    case WentRight(up, l, i) =>
      Apart(up) && i !in PathIds(up) && i !in Ids(l) && PathIds(up) !! Ids(l)
  }

  /** The links from `root` lead along `p`; what its hole holds is not constrained. */
  ghost predicate IsPath(left: seq<nat>, right: seq<nat>, root: nat, p: Path)
  {
    |left| == |right| <= NIL &&
    match p
    case Top => true
    case WentLeft(up, i, r) =>
      i < |left| && IsPath(left, right, root, up)
      && Deref(left, right, root, Hole(up)) == i && IsTree(left, right, right[i], r)
    case WentRight(up, l, i) =>
      i < |left| && IsPath(left, right, root, up)
      && Deref(left, right, root, Hole(up)) == i && IsTree(left, right, left[i], l)
  }

  lemma {:induction false} PlugIds(p: Path, t: Tree)
    ensures Ids(Plug(p, t)) == PathIds(p) + Ids(t)
  {
    match p
    case Top =>
    case WentLeft(up, i, r) => PlugIds(up, Node(t, i, r));
    case WentRight(up, l, i) => PlugIds(up, Node(l, i, t));
  }

  lemma {:induction false} PlugTree(left: seq<nat>, right: seq<nat>, root: nat, p: Path, t: Tree)
    requires IsPath(left, right, root, p)
    requires IsTree(left, right, Deref(left, right, root, Hole(p)), t)
    ensures IsTree(left, right, root, Plug(p, t))
  {
    match p
    case Top =>
    case WentLeft(up, i, r) => PlugTree(left, right, root, up, Node(t, i, r));
    case WentRight(up, l, i) => PlugTree(left, right, root, up, Node(l, i, t));
  }

  ghost predicate SameAt(left: seq<nat>, right: seq<nat>, left': seq<nat>, right': seq<nat>, i: nat)
  {
    i < |left| == |right| == |left'| == |right'| ==> left'[i] == left[i] && right'[i] == right[i]
  }

  lemma {:induction false} TreeFrame(left: seq<nat>, right: seq<nat>, root: nat, t: Tree,
                                     left': seq<nat>, right': seq<nat>)
    requires IsTree(left, right, root, t) && |left'| == |left| && |right'| == |right|
    requires forall i :: i in Ids(t) ==> SameAt(left, right, left', right', i)
    ensures IsTree(left', right', root, t)
    decreases t
  {
    match t
    case Leaf =>
    case Node(l, i, r) =>
      assert i in Ids(t);
      TreeFrame(left, right, left[i], l, left', right');
      TreeFrame(left, right, right[i], r, left', right');
  }

  lemma {:induction false} PathFrame(left: seq<nat>, right: seq<nat>, root: nat, p: Path,
                                     left': seq<nat>, right': seq<nat>)
    requires IsPath(left, right, root, p) && |left'| == |left| && |right'| == |right|
    requires forall i :: i in PathIds(p) ==> SameAt(left, right, left', right', i)
    ensures IsPath(left', right', root, p)
    ensures Deref(left', right', root, Hole(p)) == Deref(left, right, root, Hole(p))
  {
    match p
    case Top =>
    case WentLeft(up, i, r) =>
      assert i in PathIds(p);
      PathFrame(left, right, root, up, left', right');
      TreeFrame(left, right, right[i], r, left', right');
    case WentRight(up, l, i) =>
      assert i in PathIds(p);
      PathFrame(left, right, root, up, left', right');
      TreeFrame(left, right, left[i], l, left', right');
  }

  /** Writing through the hole of a path keeps the path. */
  lemma {:induction false} WriteHole(left: seq<nat>, right: seq<nat>, root: nat, p: Path, v: nat,
                                     left': seq<nat>, right': seq<nat>, root': nat)
    requires IsPath(left, right, root, p) && Apart(p)
    requires Written(left, right, root, Hole(p), v, left', right', root')
    ensures IsPath(left', right', root', p)
    ensures Deref(left', right', root', Hole(p)) == v
  {
    match p
    case Top =>
    case WentLeft(up, i, r) =>
      PathFrame(left, right, root, up, left', right');
      TreeFrame(left, right, right[i], r, left', right');
    case WentRight(up, l, i) =>
      PathFrame(left, right, root, up, left', right');
      TreeFrame(left, right, left[i], l, left', right');
  }
}
