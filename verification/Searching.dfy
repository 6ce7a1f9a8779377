/** What searching the free blocks finds, in terms of the free pages. */
module Searching {
  import opened Options
  import opened Treap
  import opened MaxHeap
  import opened Blocks
  import opened Allocator
  import opened Bisect
  import H = HeapOps
  import T = TreapOps

  /** A run of pages that answers the request, all of them in `pages`. */
  ghost predicate Answers(q: Request, o: nat, pages: set<nat>)
  {
    (q.align > 1 ==> (q.base + o) % q.align == 0) && Run(o, q.pages) <= pages
  }

  ghost predicate Unanswerable(q: Request, pages: set<nat>)
  {
    forall o :: !Answers(q, o, pages)
  }

  /** A run of the pages that can be lengthened at neither end. */
  ghost predicate Maximal(o: nat, n: nat, pages: set<nat>)
  {
    n > 0 && Run(o, n) <= pages && o + n !in pages && (o > 0 ==> o - 1 !in pages)
  }

  /** No maximal run with room for the request is longer than `n`. */
  ghost predicate Longest(n: nat, q: Request, pages: set<nat>)
  {
    forall c: nat, m: nat :: Maximal(c, m, pages) && (exists p: nat :: Fits(c, m, q, p)) ==> m <= n
  }

  /** The pages granted from `o` on lie where they belong in a maximal run of `pages`; `best`: in a longest one
      with room for them. */
  ghost predicate TakenFrom(q: Request, o: nat, pages: set<nat>, best: bool)
  {
    exists b: nat, n: nat :: Maximal(b, n, pages) && Centred(b, n, q, o) && (best ==> Longest(n, q, pages))
  }

  lemma Reachable(s: State, all: set<nat>, held: set<nat>, pub: nat, q: Request)
    requires Sound(s, all, pub) && BlocksApart(s, held, pub) && Safe(q, pub)
    ensures Sized(s.h, s.off) && Sized(s.h, s.size) && Unwrapped(s.h, s.off, s.size, q)
  {
    HeapReady(s, all, pub);
    hide Sound, Ids, Misplaces;
    forall k | 0 <= k < |s.h| ensures Reaches(s.off[s.h[k]], s.size[s.h[k]], q) {
      assert s.h[k] in s.h;
    }
  }

  /** A found spot lies in a free block and answers the request. */
  lemma SpotAnswers(s: State, all: set<nat>, held: set<nat>, pub: nat, q: Request)
    requires Sound(s, all, pub) && BlocksApart(s, held, pub) && Legal(q) && Safe(q, pub)
    ensures Sized(s.h, s.off) && Sized(s.h, s.size)
    ensures match PageBisect(s.h, s.off, s.size, 0, q)
      case Some(p) =>
        && p.id in Ids(s.tree) && p.id < |s.off| && p.id < |s.size| && p.left + q.pages <= s.size[p.id]
        && Answers(q, s.off[p.id] + p.left, Free(s))
      case None => true
  {
    hide *;
    Reachable(s, all, held, pub, q);
    HeapReady(s, all, pub);
    FoundFits(s.h, s.off, s.size, q);
    match PageBisect(s.h, s.off, s.size, 0, q)
    case Some(p) =>
      CentredFits(s.off[p.id], s.size[p.id], q, s.off[p.id] + p.left);
      FitAnswers(s, q, p);
    case None =>
  }

  /** A found spot is where it belongs in a maximal run of free pages; with the heap in order, in a longest one
      with room for the request. */
  lemma SpotBelongs(s: State, all: set<nat>, held: set<nat>, pub: nat, q: Request)
    requires Sound(s, all, pub) && BlocksApart(s, held, pub) && Legal(q) && Safe(q, pub) && Coalesced(s)
    ensures Sized(s.h, s.off) && Sized(s.h, s.size)
    ensures match PageBisect(s.h, s.off, s.size, 0, q)
      case Some(p) => p.id < |s.off| && TakenFrom(q, s.off[p.id] + p.left, Free(s), Ordered(s.h, s.size))
      case None => true
  {
    hide *;
    Reachable(s, all, held, pub, q);
    HeapReady(s, all, pub);
    FoundFits(s.h, s.off, s.size, q);
    FreeDisjoint(s, held, pub);
    match PageBisect(s.h, s.off, s.size, 0, q)
    case Some(p) =>
      BlockMaximal(s, pub, p.id);
      if Ordered(s.h, s.size) {
        BisectExhaustive(s.h, s.off, s.size, q);
        BlocksLongest(s, pub, q, s.size[p.id]);
      }
      Belongs(q, s.off[p.id], s.size[p.id], s.off[p.id] + p.left, Free(s), Ordered(s.h, s.size));
    case None =>
  }

  lemma Belongs(q: Request, b: nat, n: nat, o: nat, pages: set<nat>, best: bool)
    requires Maximal(b, n, pages) && Centred(b, n, q, o) && (best ==> Longest(n, q, pages))
    ensures TakenFrom(q, o, pages, best)
  {
    hide Maximal, Centred, Longest;
  }

  lemma BelongsStill(q: Request, o: nat, pages: set<nat>, best: bool, best': bool)
    requires TakenFrom(q, o, pages, best) && (best' ==> best)
    ensures TakenFrom(q, o, pages, best')
  {
    hide Maximal, Centred, Longest;
  }

  lemma FreeDisjoint(s: State, held: set<nat>, pub: nat)
    requires BlocksApart(s, held, pub) && Coalesced(s)
    ensures Disjoint(s.off, s.size, Ids(s.tree), pub) && Spaced(s.off, s.size, Ids(s.tree))
  {
    hide Ids;
    Subfamily(s.off, s.size, Ids(s.tree) + held, Ids(s.tree), pub);
  }

  lemma BlockMaximal(s: State, pub: nat, i: nat)
    requires Disjoint(s.off, s.size, Ids(s.tree), pub) && Spaced(s.off, s.size, Ids(s.tree)) && i in Ids(s.tree)
    ensures i < |s.off| && i < |s.size| && Maximal(s.off[i], s.size[i], Free(s))
  {
    hide Ids, Pages, Run;
    PagesIn(s.off, s.size, Ids(s.tree), i);
    MaximalRun(s.off, s.size, Ids(s.tree), pub, i);
  }

  /** The maximal runs of free pages are the free blocks. */
  lemma BlocksLongest(s: State, pub: nat, q: Request, n: nat)
    requires Disjoint(s.off, s.size, Ids(s.tree), pub) && Spaced(s.off, s.size, Ids(s.tree))
    requires Sized(s.h, s.off) && Sized(s.h, s.size) && forall i :: i in s.h <==> i in Ids(s.tree)
    requires forall k :: 0 <= k < |s.h| && Holds(s.off, s.size, s.h[k], q) ==> s.size[s.h[k]] <= n
    ensures Longest(n, q, Free(s))
  {
    hide Ids, Pages, Run, Fits, Maximal;
    forall c: nat, m: nat | Maximal(c, m, Free(s)) && (exists p: nat :: Fits(c, m, q, p)) ensures m <= n {
      var i := MaximalBlock(s, pub, c, m);
      var k :| 0 <= k < |s.h| && s.h[k] == i;
      assert Holds(s.off, s.size, s.h[k], q);
    }
  }

  lemma MaximalBlock(s: State, pub: nat, c: nat, m: nat) returns (i: nat)
    requires Disjoint(s.off, s.size, Ids(s.tree), pub) && Spaced(s.off, s.size, Ids(s.tree))
    requires Maximal(c, m, Free(s))
    ensures i in Ids(s.tree) && i < |s.off| && i < |s.size| && s.off[i] == c && s.size[i] == m
  {
    hide Ids, Pages, Run;
    i := RunInOneBlock(s.off, s.size, Ids(s.tree), pub, c, m);
    PagesIn(s.off, s.size, Ids(s.tree), i);
    BeforeInRun(s.off[i], s.size[i], c);
    BeforeInRun(s.off[i], s.size[i], c + m + 1);
  }

  lemma CentredFits(offset: nat, size: nat, q: Request, o: nat)
    requires Centred(offset, size, q, o)
    ensures Fits(offset, size, q, o)
  {
  }

  lemma FitAnswers(s: State, q: Request, p: Spot)
    requires p.id in Ids(s.tree) && p.id < |s.off| && p.id < |s.size|
    requires Fits(s.off[p.id], s.size[p.id], q, s.off[p.id] + p.left)
    ensures p.left + q.pages <= s.size[p.id] && Answers(q, s.off[p.id] + p.left, Free(s))
  {
    hide Ids, Run, Pages;
    PagesIn(s.off, s.size, Ids(s.tree), p.id);
    assert Run(s.off[p.id] + p.left, q.pages) <= Run(s.off[p.id], s.size[p.id]);
  }

  /** With the heap in order and no two free blocks touching, nothing is found only when no
      run of free pages answers the request. */
  lemma NothingAnswers(s: State, all: set<nat>, held: set<nat>, pub: nat, q: Request)
    requires Sound(s, all, pub) && BlocksApart(s, held, pub) && Legal(q) && Safe(q, pub)
    requires Coalesced(s) && Ordered(s.h, s.size)
    ensures Sized(s.h, s.off) && Sized(s.h, s.size)
    ensures PageBisect(s.h, s.off, s.size, 0, q) == None ==> Unanswerable(q, Free(s))
  {
    Reachable(s, all, held, pub, q);
    HeapReady(s, all, pub);
    BisectExhaustive(s.h, s.off, s.size, q);
    Subfamily(s.off, s.size, Ids(s.tree) + held, Ids(s.tree), pub);
    hide Sound, Ids, PageBisect, Unwrapped, BlocksApart, Safe, H.Linked, Ordered, Fits;
    if PageBisect(s.h, s.off, s.size, 0, q) == None {
      forall o | Answers(q, o, Free(s)) ensures false {
        RunHeld(s, pub, q, o);
      }
    }
  }

  lemma RunHeld(s: State, pub: nat, q: Request, o: nat)
    requires Disjoint(s.off, s.size, Ids(s.tree), pub) && Coalesced(s) && Legal(q)
    requires Answers(q, o, Free(s)) && Sized(s.h, s.off) && Sized(s.h, s.size)
    requires forall i :: i in s.h <==> i in Ids(s.tree)
    ensures exists k :: 0 <= k < |s.h| && Holds(s.off, s.size, s.h[k], q)
  {
    hide Ids, Run, Pages;
    var i := RunInOneBlock(s.off, s.size, Ids(s.tree), pub, o, q.pages);
    var k :| 0 <= k < |s.h| && s.h[k] == i;
    assert Fits(s.off[i], s.size[i], q, o);
  }

  /** Fewer pages, fewer answers. */
  lemma AnswersMore(q: Request, o: nat, pages: set<nat>, more: set<nat>)
    requires Answers(q, o, pages) && pages <= more
    ensures Answers(q, o, more)
  {
    hide Run;
  }

  /** Only the next free block can start at the key. */
  lemma OnlyNext(s: State, all: set<nat>, held: set<nat>, pub: nat, o: nat, id: nat, n: nat)
    requires Sound(s, all, pub) && BlocksApart(s, held, pub)
    requires InRange(Ids(s.tree), s.off) && T.IsNext(s.tree, s.off, o, id)
    requires id != NIL ==> id < |s.off| && id < |s.size| && (s.off[id] != o || s.size[id] < n)
    ensures forall i :: i in Ids(s.tree) && i < |s.off| && i < |s.size| ==> s.off[i] != o || s.size[i] < n
  {
    hide Ids;
  }
}
