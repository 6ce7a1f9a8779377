/** Page blocks that other threads have freed and the owner has yet to batch. */
module Pending {
  import opened Blocks
  import opened Words

  datatype PageFree = PageFree(offset: nat, pages: nat)

  ghost function PagesOf(r: PageFree): set<nat>
  {
    Run(r.offset, r.pages)
  }

  ghost function PendingPages(q: seq<PageFree>): set<nat>
  {
    set k, p | 0 <= k < |q| && p in PagesOf(q[k]) :: p
  }

  /** Nonempty, pairwise disjoint blocks of used pages. */
  ghost predicate Queued(q: seq<PageFree>, used: set<nat>, pub: nat)
  {
    && (forall k :: 0 <= k < |q| ==> q[k].pages > 0 && q[k].offset + q[k].pages <= pub && PagesOf(q[k]) <= used)
    && (forall k, m :: 0 <= k < m < |q| ==> PagesOf(q[k]) !! PagesOf(q[m]))
  }

  lemma Dequeue(q: seq<PageFree>, i: nat, used: set<nat>, pub: nat)
    requires i < |q| && Queued(q[i..], used, pub)
    ensures q[i].pages > 0 && q[i].offset + q[i].pages <= pub && PagesOf(q[i]) <= used
    ensures Queued(q[i + 1..], used - PagesOf(q[i]), pub)
    ensures used - PagesOf(q[i]) - PendingPages(q[i + 1..]) == used - PendingPages(q[i..])
  {
    hide PagesOf;
    var r := q[i..];
    assert r[0] == q[i] && r == [q[i]] + q[i + 1..];
    var t := q[i + 1..];
    forall k | 0 <= k < |t| ensures t[k] == r[k + 1] {
    }
    Split(r, q[i], t);
  }

  lemma Split(q': seq<PageFree>, r: PageFree, q: seq<PageFree>)
    requires q' == [r] + q
    ensures PendingPages(q') == PagesOf(r) + PendingPages(q)
  {
    hide PagesOf;
    forall p | p in PendingPages(q') ensures p in PagesOf(r) + PendingPages(q) {
      var k :| 0 <= k < |q'| && p in PagesOf(q'[k]);
      assert k > 0 ==> q[k - 1] == q'[k];
    }
    forall p | p in PendingPages(q) ensures p in PendingPages(q') {
      var k :| 0 <= k < |q| && p in PagesOf(q[k]);
      assert q'[k + 1] == q[k];
    }
    assert q'[0] == r;
  }

  lemma PendingBoth(a: seq<PageFree>, b: seq<PageFree>)
    ensures PendingPages(a + b) == PendingPages(a) + PendingPages(b)
  {
    hide PagesOf;
    var c := a + b;
    forall p | p in PendingPages(c) ensures p in PendingPages(a) + PendingPages(b) {
      var k :| 0 <= k < |c| && p in PagesOf(c[k]);
      assert if k < |a| then c[k] == a[k] else c[k] == b[k - |a|];
    }
    forall p | p in PendingPages(b) ensures p in PendingPages(c) {
      var k :| 0 <= k < |b| && p in PagesOf(b[k]);
      assert c[k + |a|] == b[k];
    }
    forall p | p in PendingPages(a) ensures p in PendingPages(c) {
      var k :| 0 <= k < |a| && p in PagesOf(a[k]);
      assert c[k] == a[k];
    }
  }

  lemma PendingOne(x: PageFree)
    ensures PendingPages([x]) == PagesOf(x)
  {
    hide PagesOf;
    assert [x][0] == x;
  }

  lemma Enqueue(q: seq<PageFree>, r: PageFree, used: set<nat>, pub: nat)
    requires Queued(q, used, pub) && r.pages > 0 && r.offset + r.pages <= pub
    requires PagesOf(r) <= used - PendingPages(q)
    ensures Queued([r] + q, used, pub)
    ensures used - PendingPages([r] + q) == used - PendingPages(q) - PagesOf(r)
  {
    hide PagesOf;
    var q' := [r] + q;
    assert q'[0] == r;
    forall k | 0 < k < |q'| ensures q'[k] == q[k - 1] {
    }
    Split(q', r, q);
    forall k, m | 0 <= k < m < |q'| ensures PagesOf(q'[k]) !! PagesOf(q'[m]) {
      assert m > 0 && q'[m] == q[m - 1];
    }
  }

  /** More used pages do not disturb the queue. */
  lemma QueuedStill(q: seq<PageFree>, used: set<nat>, used': set<nat>, pub: nat)
    requires Queued(q, used, pub) && used <= used'
    ensures Queued(q, used', pub)
  {
    hide PagesOf;
  }

  lemma PendingUsed(q: seq<PageFree>, used: set<nat>, pub: nat)
    requires Queued(q, used, pub)
    ensures PendingPages(q) <= used
  {
    hide PagesOf;
  }

  lemma CountsUp(n: nat, m: nat)
    requires m > 0
    ensures (n + 1) % m == if n % m + 1 < m then n % m + 1 else 0
    ensures n < m ==> n % m == n
  {
    var d, r := n / m, n % m;
    Rebuilt(n, m);
    if r + 1 < m { Euclid(n + 1, m, d, r + 1); } else { Euclid(n + 1, m, d + 1, 0); }
    if n < m { Euclid(n, m, 0, n); }
  }

  lemma CountsAlong(n: nat, k: nat, m: nat)
    requires m > 0
    ensures (n % m + k) % m == (n + k) % m
  {
    var d, r := (n % m + k) / m, (n % m + k) % m;
    Rebuilt(n, m);
    Rebuilt(n % m + k, m);
    Distributed(m, n / m, d);
    Euclid(n + k, m, n / m + d, r);
  }

  lemma Distributed(m: nat, a: nat, b: nat)
    ensures m * (a + b) == m * a + m * b
  {
  }

  lemma Rebuilt(n: nat, m: nat)
    requires m > 0
    ensures n == m * (n / m) + n % m && n % m < m && m * (n / m + 1) == m * (n / m) + m
  {
  }

  lemma NothingQueued(used: set<nat>, pub: nat)
    ensures Queued([], used, pub) && PendingPages([]) == {} && used - PendingPages([]) == used
  {
  }

  lemma NonePending()
    ensures PendingPages([]) == {}
  {
  }

  // ---------- any collection of blocks ----------

  /** The blocks are exactly the pages given. */
  ghost predicate Covered(q: seq<PageFree>, used: set<nat>, pub: nat)
  {
    Queued(q, used, pub) && PendingPages(q) == used
  }

  lemma Allot(q: seq<PageFree>, r: PageFree, used: set<nat>, pub: nat)
    requires Covered(q, used, pub) && r.pages > 0 && r.offset + r.pages <= pub && PagesOf(r) !! used
    ensures Covered([r] + q, used + PagesOf(r), pub)
  {
    hide PagesOf, Queued;
    QueuedStill(q, used, used + PagesOf(r), pub);
    Enqueue(q, r, used + PagesOf(r), pub);
    Split([r] + q, r, q);
  }

  function Without<T>(q: seq<T>, k: nat): seq<T>
    requires k < |q|
  {
    q[..k] + q[k + 1..]
  }

  /** The block at `k`, and what is left without it. */
  lemma Retire(q: seq<PageFree>, k: nat, used: set<nat>, pub: nat)
    requires Covered(q, used, pub) && k < |q|
    ensures q[k].pages > 0 && q[k].offset + q[k].pages <= pub && PagesOf(q[k]) <= used
    ensures Covered(Without(q, k), used - PagesOf(q[k]), pub)
  {
    hide PagesOf;
    var w := Without(q, k);
    forall i | 0 <= i < |w| ensures w[i] == if i < k then q[i] else q[i + 1] {
    }
    forall p | p in used - PagesOf(q[k]) ensures p in PendingPages(w) {
      var i :| 0 <= i < |q| && p in PagesOf(q[i]);
      assert if i < k then w[i] == q[i] else w[i - 1] == q[i];
    }
    forall i | 0 <= i < |w| ensures PagesOf(w[i]) !! PagesOf(q[k]) {
      if i < k { assert PagesOf(q[i]) !! PagesOf(q[k]); } else { assert PagesOf(q[k]) !! PagesOf(q[i + 1]); }
    }
  }

  function Piece(o: nat, n: nat): seq<PageFree>
  {
    if n == 0 then [] else [PageFree(o, n)]
  }

  /** Block `k` loses `n` pages, `from` pages from its start. */
  function Cut(q: seq<PageFree>, k: nat, from: nat, n: nat): seq<PageFree>
    requires k < |q| && from + n <= q[k].pages
  {
    Piece(q[k].offset, from) + (Piece(q[k].offset + from + n, q[k].pages - from - n) + Without(q, k))
  }

  lemma AllotPiece(q: seq<PageFree>, o: nat, n: nat, used: set<nat>, pub: nat)
    requires Covered(q, used, pub) && o + n <= pub && Run(o, n) !! used
    ensures Covered(Piece(o, n) + q, used + Run(o, n), pub)
  {
    hide Covered, Run;
    if n > 0 {
      Allot(q, PageFree(o, n), used, pub);
    } else {
      NoPages(o);
      assert Piece(o, n) + q == q && used + Run(o, n) == used;
    }
  }

  lemma NoPages(o: nat)
    ensures Run(o, 0) == {}
  {
  }

  lemma CutCovers(q: seq<PageFree>, k: nat, from: nat, n: nat, used: set<nat>, pub: nat)
    requires Covered(q, used, pub) && k < |q| && from + n <= q[k].pages
    ensures q[k].offset + from + n <= pub && Run(q[k].offset + from, n) <= used
    ensures Covered(Cut(q, k, from, n), used - Run(q[k].offset + from, n), pub)
  {
    hide Covered, Run;
    var b := q[k];
    Retire(q, k, used, pub);
    RunSplit(b.offset, b.pages, from);
    RunSplit(b.offset + from, b.pages - from, n);
    var rest, gone := used - PagesOf(b), Run(b.offset + from, n);
    var right := Run(b.offset + from + n, b.pages - from - n);
    AllotPiece(Without(q, k), b.offset + from + n, b.pages - from - n, rest, pub);
    AllotPiece(Piece(b.offset + from + n, b.pages - from - n) + Without(q, k), b.offset, from, rest + right, pub);
    assert rest + right + Run(b.offset, from) == used - gone;
  }
}
