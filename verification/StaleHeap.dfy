/** Erasing from the heap while one entry's size has outgrown its position. */
module StaleHeap {
  import opened MaxHeap

  /** Every entry directly below `c`, other than `e`, is at most `limit`. */
  ghost predicate Under(h: seq<nat>, size: seq<nat>, c: nat, e: nat, limit: nat)
    requires Sized(h, size)
  {
    forall i :: 0 < i < |h| && Parent(i) == c && i != e ==> Key(h, size, i) <= limit
  }

  /** The entry at `c` is about to sink in a heap whose entry at `e` is stale. */
  ghost predicate SinkReady(h: seq<nat>, size: seq<nat>, c: nat, e: nat)
  {
    && c < |h| && e < |h| && c != e && Sized(h, size)
    && (forall i :: 0 < i < |h| && i != e && Parent(i) != c ==> Edge(h, size, i))
    && (c > 0 ==> Under(h, size, c, e, Key(h, size, Parent(c))))
    && (e > 0 && Parent(e) != c ==> Under(h, size, e, 0, Key(h, size, Parent(e))))
    && (e > 0 && c > 0 && Parent(c) == e ==> Under(h, size, c, 0, Key(h, size, Parent(e))))
    && (e > 0 && c > 0 && Parent(e) == c ==> Under(h, size, e, 0, Key(h, size, Parent(c))))
  }

  lemma SinkPastEdges(h: seq<nat>, size: seq<nat>, c: nat, e: nat, b: nat)
    requires SinkReady(h, size, c, e) && c < b < |h| && Parent(b) == c && b != e
    requires Under(h, size, c, 0, Key(h, size, b)) && Key(h, size, b) > Key(h, size, c)
    ensures var g := Swap(h, c, b);
      && (forall i :: 0 < i < |g| && i != e && Parent(i) != b ==> Edge(g, size, i))
      && Under(g, size, b, e, Key(g, size, c))
  {
    var g := Swap(h, c, b);
    forall i | 0 < i < |g| && i != e && Parent(i) != b ensures Edge(g, size, i) {
      assert i != c && Parent(i) != c ==> Edge(h, size, i);
    }
    forall i | 0 < i < |g| && Parent(i) == b && i != e
      ensures Key(g, size, i) <= Key(g, size, c)
    {
      assert Edge(h, size, i);
    }
  }

  lemma SinkPastBridge(h: seq<nat>, size: seq<nat>, c: nat, e: nat, b: nat)
    requires SinkReady(h, size, c, e) && c < b < |h| && Parent(b) == c && b != e && e > 0
    requires Under(h, size, c, 0, Key(h, size, b)) && Key(h, size, b) > Key(h, size, c)
    ensures var g := Swap(h, c, b);
      Under(g, size, e, 0, Key(g, size, if Parent(e) == b then c else Parent(e)))
  {
    var g := Swap(h, c, b);
    forall i | 0 < i < |g| && Parent(i) == e
      ensures Key(g, size, i) <= Key(g, size, if Parent(e) == b then c else Parent(e))
    {
      if i == c {
      } else if Parent(e) == c {
        assert Edge(h, size, i) && Key(h, size, e) <= Key(h, size, b);
      } else {
        assert i != b;
      }
    }
  }

  lemma SinkPast(h: seq<nat>, size: seq<nat>, c: nat, e: nat, b: nat)
    requires SinkReady(h, size, c, e) && c < b < |h| && Parent(b) == c && b != e
    requires Under(h, size, c, 0, Key(h, size, b)) && Key(h, size, b) > Key(h, size, c)
    ensures SinkReady(Swap(h, c, b), size, b, e)
  {
    SinkPastEdges(h, size, c, e, b);
    if e > 0 { SinkPastBridge(h, size, c, e, b); }
    hide Under, Edge;
  }

  lemma StaleRisesEdges(h: seq<nat>, size: seq<nat>, c: nat, e: nat)
    requires SinkReady(h, size, c, e) && e > 0 && Parent(e) == c && (c > 0 ==> Edge(h, size, c))
    requires Under(h, size, c, 0, Key(h, size, e)) && Key(h, size, e) > Key(h, size, c)
    ensures var g := Swap(h, c, e);
      && (forall i :: 0 < i < |g| && i != c && Parent(i) != e ==> Edge(g, size, i))
      && Under(g, size, e, c, Key(g, size, c))
  {
    var g := Swap(h, c, e);
    forall i | 0 < i < |g| && i != c && Parent(i) != e ensures Edge(g, size, i) {
      assert i != e && Parent(i) != c ==> Edge(h, size, i);
    }
    forall i | 0 < i < |g| && Parent(i) == e ensures Key(g, size, i) <= Key(g, size, c) {
      assert Edge(h, size, i);
    }
  }

  lemma StaleRisesBridge(h: seq<nat>, size: seq<nat>, c: nat, e: nat)
    requires SinkReady(h, size, c, e) && e > 0 && Parent(e) == c && c > 0 && Edge(h, size, c)
    requires Under(h, size, c, 0, Key(h, size, e)) && Key(h, size, e) > Key(h, size, c)
    ensures var g := Swap(h, c, e);
      Under(g, size, c, 0, Key(g, size, Parent(c))) && Under(g, size, e, 0, Key(g, size, Parent(c)))
  {
    var g := Swap(h, c, e);
    forall i | 0 < i < |g| && Parent(i) == c ensures Key(g, size, i) <= Key(g, size, Parent(c)) {
      assert i != e ==> g[i] == h[i];
    }
    forall i | 0 < i < |g| && Parent(i) == e ensures Key(g, size, i) <= Key(g, size, Parent(c)) {
      assert g[i] == h[i];
    }
  }

  lemma StaleRises(h: seq<nat>, size: seq<nat>, c: nat, e: nat)
    requires SinkReady(h, size, c, e) && e > 0 && Parent(e) == c && (c > 0 ==> Edge(h, size, c))
    requires Under(h, size, c, 0, Key(h, size, e)) && Key(h, size, e) > Key(h, size, c)
    ensures SinkReady(Swap(h, c, e), size, e, c)
  {
    StaleRisesEdges(h, size, c, e);
    if c > 0 { StaleRisesBridge(h, size, c, e); }
    hide Under, Edge;
  }

  lemma SinkStops(h: seq<nat>, size: seq<nat>, c: nat, e: nat)
    requires SinkReady(h, size, c, e) && Under(h, size, c, 0, Key(h, size, c))
    ensures Stale(h, size, e)
  {
    forall i | 0 < i < |h| && i != e ensures Edge(h, size, i) {
    }
    forall i | 0 < e && 0 < i < |h| && Parent(i) == e
      ensures Key(h, size, i) <= Key(h, size, Parent(e))
    {
      assert Edge(h, size, i);
    }
  }

  /** Sinking past a stale entry leaves the heap in order but for that entry. */
  lemma {:induction false} SinkStale(h: seq<nat>, size: seq<nat>, c: nat, e: nat) returns (e': nat)
    requires SinkReady(h, size, c, e) && (c > 0 ==> Edge(h, size, c))
    ensures var r := SiftDown(h, size, c); e' < |r| && r[e'] == h[e] && Stale(r, size, e')
    ensures e < c ==> e' == e
    ensures Largest(h, size, c) == e ==> e' == c
    decreases |h| - c
  {
    LargestChild(h, size, c);
    var b := Largest(h, size, c);
    assert Under(h, size, c, 0, Key(h, size, b));
    hide Largest;
    var g := Swap(h, c, b);
    if b == c {
      e' := e;
      SinkStops(h, size, c, e);
    } else if b == e {
      StaleRises(h, size, c, e);
      e' := SinkStale(g, size, b, c);
    } else {
      SinkPast(h, size, c, e, b);
      e' := SinkStale(g, size, b, e);
    }
  }

  /** `e` lies on the way from `c` up to the root. */
  ghost predicate Above(e: nat, c: nat)
    decreases c
  {
    e < c && (Parent(c) == e || Above(e, Parent(c)))
  }

  /** The entry at `c` is about to climb in a heap whose entry at `e` is stale. */
  ghost predicate ClimbReady(h: seq<nat>, size: seq<nat>, c: nat, e: nat)
  {
    && c < |h| && e < |h| && c != e && Sized(h, size)
    && (forall i :: 0 < i < |h| && i != c && i != e ==> Edge(h, size, i))
    && (c > 0 ==> Under(h, size, c, e, Key(h, size, Parent(c))))
    && (e > 0 && Parent(e) != c ==> Under(h, size, e, c, Key(h, size, Parent(e))))
    && (e > 0 && Parent(e) == c ==> Under(h, size, e, 0, Key(h, size, c)))
    && (e > 0 && c > 0 && Parent(e) == c ==> Under(h, size, e, 0, Key(h, size, Parent(c))))
    && (e > 0 && c > 0 && Parent(c) == e ==> Under(h, size, c, 0, Key(h, size, Parent(e))))
  }

  /** The climb from `c` ends directly below the stale entry, above what should stay over it. */
  ghost predicate Caught(h: seq<nat>, size: seq<nat>, c: nat, e: nat)
    requires c < |h| && e < |h| && Sized(h, size)
  {
    e > 0 && Above(e, c) && Key(h, size, Parent(e)) < Key(h, size, c) <= Key(h, size, e)
  }

  lemma ClimbPast(h: seq<nat>, size: seq<nat>, c: nat, e: nat)
    requires ClimbReady(h, size, c, e) && c > 0 && Parent(c) != e
    requires Key(h, size, c) > Key(h, size, Parent(c))
    ensures ClimbReady(Swap(h, c, Parent(c)), size, Parent(c), e)
  {
    ClimbPastEdges(h, size, c, e);
    if e > 0 { ClimbPastBridge(h, size, c, e); }
    hide Under, Edge;
  }

  lemma CaughtCarries(h: seq<nat>, size: seq<nat>, c: nat, e: nat)
    requires c < |h| && e < |h| && c != e && Sized(h, size) && c > 0
    requires Key(h, size, c) > Key(h, size, Parent(c))
    ensures var g := Swap(h, c, Parent(c));
      if Parent(c) == e then !Caught(h, size, c, e) && !Caught(g, size, e, c)
      else Caught(g, size, Parent(c), e) <==> Caught(h, size, c, e)
  {
    var g := Swap(h, c, Parent(c));
    if Parent(c) != e && e > 0 && Above(e, Parent(c)) {
      assert Parent(e) != c && Parent(e) != Parent(c);
    }
  }

  lemma ClimbPastEdges(h: seq<nat>, size: seq<nat>, c: nat, e: nat)
    requires ClimbReady(h, size, c, e) && c > 0 && Parent(c) != e
    requires Key(h, size, c) > Key(h, size, Parent(c))
    ensures var p := Parent(c);
      var g := Swap(h, c, p);
      && (forall i :: 0 < i < |g| && i != p && i != e ==> Edge(g, size, i))
      && (p > 0 ==> Under(g, size, p, e, Key(g, size, Parent(p))))
  {
    var p := Parent(c);
    var g := Swap(h, c, p);
    forall i | 0 < i < |g| && i != p && i != e ensures Edge(g, size, i) {
      assert i != c ==> Edge(h, size, i);
    }
    if p > 0 {
      assert Edge(h, size, p);
      forall i | 0 < i < |g| && Parent(i) == p && i != e
        ensures Key(g, size, i) <= Key(g, size, Parent(p))
      {
        assert i != c ==> Edge(h, size, i);
      }
    }
  }

  lemma ClimbPastBridge(h: seq<nat>, size: seq<nat>, c: nat, e: nat)
    requires ClimbReady(h, size, c, e) && c > 0 && e > 0 && Parent(c) != e
    requires Key(h, size, c) > Key(h, size, Parent(c))
    ensures var p := Parent(c);
      var g := Swap(h, c, p);
      && (Parent(e) != p ==> Under(g, size, e, p, Key(g, size, Parent(e))))
      && (Parent(e) == p ==> Under(g, size, e, 0, Key(g, size, p)))
      && (Parent(e) == p && p > 0 ==> Under(g, size, e, 0, Key(g, size, Parent(p))))
      && (p > 0 && Parent(p) == e ==> Under(g, size, p, 0, Key(g, size, Parent(e))))
  {
    var p := Parent(c);
    var g := Swap(h, c, p);
    assert p > 0 ==> Edge(h, size, p);
    forall i | 0 < i < |g| && Parent(i) == p && p > 0 && Parent(p) == e
      ensures Key(g, size, i) <= Key(g, size, Parent(e))
    {
      assert i != c ==> Edge(h, size, i);
    }
  }

  lemma StaleSinks(h: seq<nat>, size: seq<nat>, c: nat, e: nat)
    requires ClimbReady(h, size, c, e) && c > 0 && Parent(c) == e
    requires Key(h, size, c) > Key(h, size, e)
    ensures ClimbReady(Swap(h, c, e), size, e, c)
  {
    var g := Swap(h, c, e);
    forall i | 0 < i < |g| && i != c && i != e ensures Edge(g, size, i) {
      assert Edge(h, size, i);
    }
  }

  lemma {:induction false} PathUnder(h: seq<nat>, size: seq<nat>, c: nat, e: nat, p: nat)
    requires ClimbReady(h, size, c, e) && e > 0 && p < c && Above(p, c) && Above(e, p)
    ensures Key(h, size, p) <= Key(h, size, Parent(e))
    decreases p
  {
    AboveTrans(e, p, c);
    if Parent(p) != e {
      assert Edge(h, size, p);
      AboveUp(p, c);
      PathUnder(h, size, c, e, Parent(p));
    }
  }

  lemma {:induction false} AboveTrans(a: nat, b: nat, c: nat)
    requires Above(a, b) && Above(b, c)
    ensures Above(a, c)
    decreases c
  {
    if Parent(c) != b { AboveTrans(a, b, Parent(c)); }
  }

  lemma {:induction false} AboveUp(p: nat, c: nat)
    requires p > 0 && Above(p, c)
    ensures Above(Parent(p), c)
  {
    AboveTrans(Parent(p), p, c);
  }

  lemma ClimbStops(h: seq<nat>, size: seq<nat>, c: nat, e: nat)
    requires ClimbReady(h, size, c, e) && (c > 0 ==> Edge(h, size, c))
    ensures OrderedExcept(h, size, e)
    ensures Bridged(h, size, e) <==> !Caught(h, size, c, e)
  {
    if Above(e, c) && e > 0 {
      if Parent(c) == e {
        assert Caught(h, size, c, e) ==> !Bridged(h, size, e);
      } else {
        PathUnder(h, size, c, e, Parent(c));
      }
    } else {
      assert !Caught(h, size, c, e);
    }
  }

  /** Climbing past a stale entry keeps the heap in order but for that entry, and the
      entries below it bridged, exactly when the climb is not caught beneath it. */
  lemma {:induction false} ClimbStale(h: seq<nat>, size: seq<nat>, c: nat, e: nat) returns (e': nat)
    requires ClimbReady(h, size, c, e)
    ensures var r := SiftUp(h, size, c);
      e' < |r| && r[e'] == h[e] && OrderedExcept(r, size, e')
      && (Bridged(r, size, e') <==> !Caught(h, size, c, e))
    decreases c
  {
    if c > 0 && Key(h, size, c) > Key(h, size, Parent(c)) {
      var p := Parent(c);
      var g := Swap(h, c, p);
      CaughtCarries(h, size, c, e);
      hide Caught, OrderedExcept, Bridged;
      if p == e {
        StaleSinks(h, size, c, e);
        e' := ClimbStale(g, size, e, c);
      } else {
        ClimbPast(h, size, c, e);
        e' := ClimbStale(g, size, p, e);
      }
    } else {
      e' := e;
      ClimbStops(h, size, c, e);
    }
  }

  /** Erasing at `pos` would leave the displaced last entry below the stale one although it
      is larger than what stands above the stale one. */
  ghost predicate Hazard(h: seq<nat>, size: seq<nat>, pos: nat, e: nat)
    requires pos < |h| && e < |h| && Sized(h, size)
  {
    var last := Key(h, size, |h| - 1);
    e > 0 &&
    ( || (Above(e, pos) && Key(h, size, Parent(e)) < last <= Key(h, size, e))
      || (Parent(e) == pos && pos > 0 && Key(h, size, Parent(pos)) < last < Key(h, size, e)))
  }

  lemma {:induction false} IndexIn(r: seq<nat>, x: nat) returns (i: nat)
    requires x in r
    ensures i < |r| && r[i] == x
  {
    if r[0] == x {
      i := 0;
    } else {
      i := IndexIn(r[1..], x);
      i := i + 1;
    }
  }

  lemma OrderedStale(h: seq<nat>, size: seq<nat>, e: nat)
    requires Ordered(h, size) && e < |h|
    ensures Stale(h, size, e)
  {
    forall i | 0 < e && 0 < i < |h| && Parent(i) == e
      ensures Key(h, size, i) <= Key(h, size, Parent(e))
    {
      assert Edge(h, size, i) && Edge(h, size, e);
    }
  }

  lemma {:induction false} BelowBridge(h: seq<nat>, size: seq<nat>, e: nat, p: nat)
    requires Stale(h, size, e) && e > 0 && p < |h| && Above(e, p)
    ensures Key(h, size, p) <= Key(h, size, Parent(e))
    decreases p
  {
    if Parent(p) != e {
      assert Edge(h, size, p);
      BelowBridge(h, size, e, Parent(p));
    }
  }

  /** What filling a gap in a stale heap leaves in order. */
  lemma Filled(h: seq<nat>, size: seq<nat>, pos: nat, e: nat)
    requires Stale(h, size, e) && pos < |h| - 1 && pos != e
    ensures var g := Fill(h, pos);
      && |g| == |h| - 1 && Sized(g, size)
      && (forall i :: 0 <= i < |g| && i != pos ==> g[i] == h[i])
      && (forall i :: 0 < i < |g| && i != pos && i != e && Parent(i) != pos ==> Edge(g, size, i))
      && (pos > 0 ==> Under(g, size, pos, e, Key(h, size, Parent(pos))))
      && (e > 0 && Parent(e) != pos ==> Under(g, size, e, pos, Key(h, size, Parent(e))))
      && (pos > 0 && e > 0 && Parent(e) == pos ==> Under(g, size, e, 0, Key(h, size, Parent(pos))))
      && (e > 0 && pos > 0 && Parent(pos) == e ==> Under(g, size, pos, 0, Key(h, size, Parent(e))))
      && (e < |g| && e > 0 && Parent(e) == pos ==> Under(g, size, e, 0, Key(h, size, e)))
  {
    var g := Fill(h, pos);
    forall i | 0 < i < |g| && i != pos && i != e && Parent(i) != pos ensures Edge(g, size, i) {
      assert Edge(h, size, i);
    }
    assert pos > 0 ==> Edge(h, size, pos);
    forall i | 0 < i < |g| && i != e && (Parent(i) == pos || Parent(i) == e) ensures Edge(h, size, i) {
    }
  }

  lemma RemoveLast(h: seq<nat>, size: seq<nat>, e: nat)
    requires Stale(h, size, e) && e < |h| - 1
    ensures var r := Remove(h, size, |h| - 1);
      Stale(r, size, e) && r[e] == h[e] && !Hazard(h, size, |h| - 1, e)
  {
    var g := Fill(h, |h| - 1);
    forall i | 0 < i < |g| && i != e ensures Edge(g, size, i) {
      assert Edge(h, size, i);
    }
    if e > 0 && Above(e, |h| - 1) { BelowBridge(h, size, e, |h| - 1); }
  }

  /** The stale entry is the one displaced: it is sifted to where it belongs. */
  lemma RemoveDisplaces(h: seq<nat>, size: seq<nat>, pos: nat)
    requires pos < |h| - 1 && Stale(h, size, |h| - 1)
    ensures Ordered(Remove(h, size, pos), size) && !Hazard(h, size, pos, |h| - 1)
  {
    DisplacedLoose(h, size, pos);
    NoHazardLast(h, size, pos);
    hide Loose, Hazard, Stale, Fill, Fix;
    FixOrders(Fill(h, pos), size, pos);
  }

  lemma DisplacedLoose(h: seq<nat>, size: seq<nat>, pos: nat)
    requires pos < |h| - 1 && Stale(h, size, |h| - 1)
    ensures pos < |Fill(h, pos)| && Sized(Fill(h, pos), size) && Loose(Fill(h, pos), size, pos)
  {
    Filled(h, size, pos, |h| - 1);
  }

  lemma NoHazardLast(h: seq<nat>, size: seq<nat>, pos: nat)
    requires pos < |h| - 1 && Sized(h, size)
    ensures !Hazard(h, size, pos, |h| - 1)
  {
    NotAboveSmaller(|h| - 1, pos);
  }

  lemma {:induction false} NotAboveSmaller(e: nat, c: nat)
    ensures Above(e, c) ==> e < c
    decreases c
  {
    if c > 0 { NotAboveSmaller(e, Parent(c)); }
  }

  lemma FilledClimbReady(h: seq<nat>, size: seq<nat>, pos: nat, e: nat)
    requires Stale(h, size, e) && pos < |h| - 1 && e < |h| - 1 && pos != e
    requires Sized(Fill(h, pos), size) && Largest(Fill(h, pos), size, pos) == pos
    ensures ClimbReady(Fill(h, pos), size, pos, e)
    ensures Caught(Fill(h, pos), size, pos, e) <==> Hazard(h, size, pos, e)
  {
    hide Largest;
    Filled(h, size, pos, e);
    var g := Fill(h, pos);
    LargestChild(g, size, pos);
    forall i | 0 < i < |g| && i != pos && i != e ensures Edge(g, size, i) {
    }
    if e > 0 && Above(e, pos) { assert Parent(e) != pos; }
  }

  lemma RemoveClimbs(h: seq<nat>, size: seq<nat>, pos: nat, e: nat) returns (e': nat)
    requires Stale(h, size, e) && pos < |h| - 1 && e < |h| - 1 && pos != e
    requires Largest(Fill(h, pos), size, pos) == pos
    ensures var r := Remove(h, size, pos);
      && e' < |r| && r[e'] == h[e] && OrderedExcept(r, size, e')
      && (Bridged(r, size, e') <==> !Hazard(h, size, pos, e))
  {
    var g := Fill(h, pos);
    assert g[e] == h[e] && Sized(g, size);
    FilledClimbReady(h, size, pos, e);
    hide ClimbReady, Caught, Hazard, Stale, OrderedExcept, Bridged, Fill;
    assert SiftDown(g, size, pos) == g;
    e' := ClimbStale(g, size, pos, e);
  }

  /** When the child that replaces a sinking entry fits below the parent, nothing climbs. */
  lemma FixSinks(g: seq<nat>, size: seq<nat>, pos: nat)
    requires pos < |g| && Sized(g, size)
    requires var b := Largest(g, size, pos);
      b != pos && (pos > 0 ==> Key(g, size, b) <= Key(g, size, Parent(pos)))
    ensures Fix(g, size, pos) == SiftDown(g, size, pos)
  {
    LargestChild(g, size, pos);
    var b := Largest(g, size, pos);
    var r := SiftDown(Swap(g, pos, b), size, b);
    assert r[pos] == g[b];
    assert pos > 0 ==> r[Parent(pos)] == g[Parent(pos)];
  }

  lemma RemoveSinks(h: seq<nat>, size: seq<nat>, pos: nat, e: nat) returns (e': nat)
    requires Stale(h, size, e) && pos < |h| - 1 && e < |h| - 1 && pos != e
    requires var b := Largest(Fill(h, pos), size, pos); b != pos && b != e
    ensures var r := Remove(h, size, pos);
      e' < |r| && r[e'] == h[e] && Stale(r, size, e') && !Hazard(h, size, pos, e)
  {
    var g := Fill(h, pos);
    assert g[e] == h[e] && Sized(g, size);
    LargestChild(g, size, pos);
    FilledSinkReady(h, size, pos, e, Largest(g, size, pos));
    hide SinkReady, Stale, Hazard, Largest;
    FixSinks(g, size, pos);
    e' := SinkStale(g, size, pos, e);
  }

  lemma FilledSinkReady(h: seq<nat>, size: seq<nat>, pos: nat, e: nat, b: nat)
    requires Stale(h, size, e) && pos < b < |h| - 1 && e < |h| - 1 && pos != e && b != e && Parent(b) == pos
    requires Sized(Fill(h, pos), size) && Key(Fill(h, pos), size, b) > Key(Fill(h, pos), size, pos)
    ensures var g := Fill(h, pos);
      && SinkReady(g, size, pos, e)
      && (pos > 0 ==> Edge(g, size, pos) && Key(g, size, b) <= Key(g, size, Parent(pos)))
    ensures !Hazard(h, size, pos, e)
  {
    Filled(h, size, pos, e);
    if e > 0 && Above(e, pos) { BelowBridge(h, size, e, pos); }
    assert Edge(h, size, b);
  }

  lemma RemoveRaises(h: seq<nat>, size: seq<nat>, pos: nat, e: nat)
    requires Stale(h, size, e) && pos < |h| - 1 && e < |h| - 1 && pos != e
    requires Largest(Fill(h, pos), size, pos) == e
    requires pos > 0 ==> Key(h, size, |h| - 1) <= Key(h, size, Parent(pos))
    ensures Ordered(Remove(h, size, pos), size) && !Hazard(h, size, pos, e)
  {
    Filled(h, size, pos, e);
    var g := Fill(h, pos);
    LargestChild(g, size, pos);
    assert SinkReady(g, size, pos, e);
    var e' := SinkStale(g, size, pos, e);
    hide SinkReady, Under, Hazard;
    SiftUpOrders(SiftDown(g, size, pos), size, pos);
  }

  lemma SinkTraps(g: seq<nat>, size: seq<nat>, pos: nat, e: nat)
    requires pos < |g| && Sized(g, size) && Largest(g, size, pos) == e && e != pos
    requires forall i :: 0 < i < |g| && Parent(i) == e ==> Key(g, size, i) <= Key(g, size, pos)
    ensures pos < e < |g| && SiftDown(g, size, pos) == Swap(g, pos, e)
    ensures Key(g, size, e) > Key(g, size, pos)
  {
    LargestChild(g, size, pos);
    var g' := Swap(g, pos, e);
    LargestChild(g', size, e);
    var b := Largest(g', size, e);
    forall i | 0 < i < |g| && Parent(i) == e ensures Key(g', size, i) <= Key(g', size, e) {
    }
    hide Largest;
    assert b == e;
    assert SiftDown(g', size, e) == g';
  }

  lemma FixTraps(g: seq<nat>, size: seq<nat>, pos: nat, e: nat)
    requires pos < |g| && Sized(g, size) && Largest(g, size, pos) == e && e != pos
    requires forall i :: 0 < i < |g| && Parent(i) == e ==> Key(g, size, i) <= Key(g, size, pos)
    requires pos > 0 && Key(g, size, pos) > Key(g, size, Parent(pos))
    ensures var r := Fix(g, size, pos); e < |g| && r[pos] == g[Parent(pos)] && r[e] == g[pos]
  {
    SinkTraps(g, size, pos, e);
    hide SiftDown, Largest;
    var g' := Swap(g, pos, e);
    var p := Parent(pos);
    assert g'[pos] == g[e] && g'[p] == g[p] && g'[e] == g[pos];
    assert SiftUp(g', size, pos) == SiftUp(Swap(g', pos, p), size, p);
    hide SiftUp;
  }

  /** In order below `c` and above it, but for what stands between it and its parent. */
  ghost predicate Climbing(h: seq<nat>, size: seq<nat>, c: nat)
  {
    && c < |h| && Sized(h, size) && Under(h, size, c, 0, Key(h, size, c))
    && forall i :: 0 < i < |h| && i != c && Parent(i) < c ==> Edge(h, size, i)
  }

  lemma ClimbsOn(h: seq<nat>, size: seq<nat>, c: nat)
    requires Climbing(h, size, c) && c > 0 && Key(h, size, c) > Key(h, size, Parent(c))
    ensures Climbing(Swap(h, c, Parent(c)), size, Parent(c))
  {
    var p := Parent(c);
    var g := Swap(h, c, p);
    forall i | 0 < i < |g| && Parent(i) == p ensures Key(g, size, i) <= Key(g, size, p) {
      assert i != c ==> Edge(h, size, i);
    }
    forall i | 0 < i < |g| && i != p && Parent(i) < p ensures Edge(g, size, i) {
      assert Edge(h, size, i);
    }
  }

  lemma ClimbEnds(h: seq<nat>, size: seq<nat>, c: nat)
    requires Climbing(h, size, c) && (c > 0 ==> Key(h, size, c) <= Key(h, size, Parent(c)))
    ensures Fix(h, size, c) == h
  {
    LargestChild(h, size, c);
    assert Largest(h, size, c) == c;
  }

  /** An entry that has climbed as far as it can is where a fix would leave it. */
  lemma {:induction false} ClimbSettles(h: seq<nat>, size: seq<nat>, c: nat) returns (c': nat)
    requires Climbing(h, size, c)
    ensures c' <= c < |h| && Sized(h, size)
    ensures var r := SiftUp(h, size, c); r[c'] == h[c] && Fix(r, size, c') == r
    decreases c
  {
    hide Climbing, Fix;
    ClimbingSized(h, size, c);
    if c > 0 && Key(h, size, c) > Key(h, size, Parent(c)) {
      ClimbsOn(h, size, c);
      c' := ClimbSettles(Swap(h, c, Parent(c)), size, Parent(c));
    } else {
      c' := c;
      ClimbEnds(h, size, c);
    }
  }

  lemma ClimbingSized(h: seq<nat>, size: seq<nat>, c: nat)
    requires Climbing(h, size, c)
    ensures c < |h| && Sized(h, size)
  {
  }

  lemma TrapSettles(g: seq<nat>, size: seq<nat>, pos: nat, e: nat) returns (e': nat)
    requires pos < e < |g| && Parent(e) == pos && Sized(g, size) && Key(g, size, e) > Key(g, size, pos)
    requires Under(g, size, pos, 0, Key(g, size, e)) && SiftDown(g, size, pos) == Swap(g, pos, e)
    requires forall i :: 0 < i < |g| && i != pos && Parent(i) < pos ==> Edge(g, size, i)
    ensures var r := Fix(g, size, pos); e' <= pos && r[e'] == g[e] && Fix(r, size, e') == r
  {
    var g' := Swap(g, pos, e);
    forall i | 0 < i < |g| && Parent(i) == pos ensures Key(g', size, i) <= Key(g', size, pos) {
    }
    forall i | 0 < i < |g| && i != pos && Parent(i) < pos ensures Edge(g', size, i) {
      assert Edge(g, size, i) && i != e;
    }
    hide SiftDown;
    e' := ClimbSettles(g', size, pos);
  }

  lemma RemoveTraps(h: seq<nat>, size: seq<nat>, pos: nat, e: nat) returns (e': nat)
    requires Stale(h, size, e) && pos < |h| - 1 && e < |h| - 1 && pos != e
    requires Largest(Fill(h, pos), size, pos) == e
    requires pos > 0 && Key(h, size, |h| - 1) > Key(h, size, Parent(pos))
    ensures var r := Remove(h, size, pos);
      e' < |r| && r[e'] == h[e] && !OrderedExcept(r, size, e') && !Ordered(Fix(r, size, e'), size)
    ensures Hazard(h, size, pos, e)
  {
    Filled(h, size, pos, e);
    var g := Fill(h, pos);
    LargestChild(g, size, pos);
    SinkTraps(g, size, pos, e);
    FixTraps(g, size, pos, e);
    hide Largest, Fix, SiftDown;
    assert forall i :: 0 < i < |g| && Parent(i) < pos ==> i != e;
    e' := TrapSettles(g, size, pos, e);
    hide Fill, Under, Stale, OrderedExcept;
    TrapUnordered(h, size, pos, e, e');
  }

  lemma TrapUnordered(h: seq<nat>, size: seq<nat>, pos: nat, e: nat, e': nat)
    requires Sized(h, size) && 0 < pos < e < |h| - 1 && Parent(e) == pos && e' <= pos
    requires var r := Remove(h, size, pos);
      r[e] == h[|h| - 1] && r[pos] == h[Parent(pos)] && Fix(r, size, e') == r
    requires Key(h, size, |h| - 1) > Key(h, size, Parent(pos))
    ensures var r := Remove(h, size, pos);
      !OrderedExcept(r, size, e') && !Ordered(Fix(r, size, e'), size)
  {
    hide Remove, Fix;
    assert !Edge(Remove(h, size, pos), size, e);
  }

  lemma FixUnbridged(h: seq<nat>, size: seq<nat>, e: nat, i: nat)
    requires OrderedExcept(h, size, e) && 0 < e < |h|
    requires 0 < i < |h| && Parent(i) == e && Key(h, size, i) > Key(h, size, Parent(e))
    ensures !Ordered(Fix(h, size, e), size)
  {
    assert Edge(h, size, i);
    LargestChild(h, size, e);
    var b := Largest(h, size, e);
    forall k | 0 < k < |h| && Parent(k) == e ensures Key(h, size, k) <= Key(h, size, e) {
      assert Edge(h, size, k);
    }
    assert b == e;
    hide Largest, OrderedExcept;
    var p := Parent(e);
    var g := Swap(h, e, p);
    assert SiftUp(h, size, e) == SiftUp(g, size, p);
    hide SiftUp;
    var r := Fix(h, size, e);
    assert r[e] == h[p] && r[i] == h[i];
    assert !Edge(r, size, i);
    NotOrdered(r, size, i);
  }

  lemma NotOrdered(h: seq<nat>, size: seq<nat>, i: nat)
    requires Sized(h, size) && 0 < i < |h| && !Edge(h, size, i)
    ensures !Ordered(h, size)
  {
  }

  lemma FixStale(h: seq<nat>, size: seq<nat>, e: nat)
    requires OrderedExcept(h, size, e) && e < |h|
    ensures Ordered(Fix(h, size, e), size) <==> Bridged(h, size, e)
  {
    hide Fix;
    if Bridged(h, size, e) {
      FixOrders(h, size, e);
    } else {
      var i :| 0 < i < |h| && Parent(i) == e && Key(h, size, i) > Key(h, size, Parent(e));
      FixUnbridged(h, size, e, i);
    }
  }

  lemma RemoveInside(h: seq<nat>, size: seq<nat>, pos: nat, e: nat) returns (e': nat)
    requires pos < |h| - 1 && e < |h| - 1 && pos != e && Stale(h, size, e)
    ensures var r := Remove(h, size, pos);
      && e' < |r| && r[e'] == h[e]
      && (Stale(r, size, e') <==> !Hazard(h, size, pos, e))
      && (Ordered(Fix(r, size, e'), size) <==> !Hazard(h, size, pos, e))
  {
    var g, r := Fill(h, pos), Remove(h, size, pos);
    assert Sized(g, size) && g[e] == h[e];
    hide Hazard, Fill, Largest, Fix, Bridged, OrderedExcept;
    var b := Largest(g, size, pos);
    if b == pos {
      e' := RemoveClimbs(h, size, pos, e);
      FixStale(r, size, e');
    } else if b != e {
      e' := RemoveSinks(h, size, pos, e);
      FixStale(r, size, e');
    } else if pos > 0 && Key(h, size, |h| - 1) > Key(h, size, Parent(pos)) {
      e' := RemoveTraps(h, size, pos, e);
    } else {
      RemoveRaises(h, size, pos, e);
      e' := RemovedIndex(h, size, pos, e);
      OrderedStale(r, size, e');
      FixStale(r, size, e');
    }
  }

  lemma RemovedIndex(h: seq<nat>, size: seq<nat>, pos: nat, e: nat) returns (e': nat)
    requires pos < |h| - 1 && e < |h| && pos != e && Sized(h, size)
    ensures var r := Remove(h, size, pos); e' < |r| && r[e'] == h[e]
  {
    var g, r := Fill(h, pos), Remove(h, size, pos);
    assert g[pos] == h[|h| - 1] && (e < |g| ==> g[e] == h[e]);
    assert multiset(r) == multiset(g);
    hide Fill, Remove;
    assert h[e] in multiset(g) && h[e] in r;
    e' := IndexIn(r, h[e]);
  }

  /** The entry erased, or the stale one, is the last. */
  lemma RemoveAtEdge(h: seq<nat>, size: seq<nat>, pos: nat, e: nat) returns (e': nat)
    requires Stale(h, size, e) && pos < |h| && pos != e && (pos == |h| - 1 || e == |h| - 1)
    ensures var r := Remove(h, size, pos); e' < |r| && r[e'] == h[e]
    ensures Stale(Remove(h, size, pos), size, e') && !Hazard(h, size, pos, e)
    ensures Ordered(Fix(Remove(h, size, pos), size, e'), size)
  {
    hide *;
    StaleIn(h, size, e);
    if pos == |h| - 1 {
      RemoveLast(h, size, e);
      e' := e;
    } else {
      RemoveDisplaces(h, size, pos);
      e' := RemovedIndex(h, size, pos, e);
      OrderedStale(Remove(h, size, pos), size, e');
    }
    StaleMends(Remove(h, size, pos), size, e');
  }

  /** Erasing another entry keeps the heap in order but for the stale one, and the final fix
      of the stale one restores full heap order, exactly when there is no hazard. */
  lemma RemoveStale(h: seq<nat>, size: seq<nat>, pos: nat, e: nat) returns (e': nat)
    requires Stale(h, size, e) && pos < |h| && pos != e
    ensures var r := Remove(h, size, pos); e' < |r| && r[e'] == h[e]
    ensures Stale(Remove(h, size, pos), size, e') <==> !Hazard(h, size, pos, e)
    ensures Ordered(Fix(Remove(h, size, pos), size, e'), size) <==> !Hazard(h, size, pos, e)
  {
    hide *;
    StaleIn(h, size, e);
    if pos < |h| - 1 && e < |h| - 1 {
      e' := RemoveInside(h, size, pos, e);
    } else {
      e' := RemoveAtEdge(h, size, pos, e);
    }
  }

  lemma StaleIn(h: seq<nat>, size: seq<nat>, e: nat)
    requires Stale(h, size, e)
    ensures Sized(h, size) && e < |h|
  {
  }

  lemma StaleMends(h: seq<nat>, size: seq<nat>, e: nat)
    requires Stale(h, size, e) && e < |h|
    ensures Ordered(Fix(h, size, e), size)
  {
    hide Fix;
    FixStale(h, size, e);
  }

  lemma HazardExample(h: seq<nat>, before: seq<nat>, after: seq<nat>)
    requires |h| == 12 && forall i :: 0 <= i < 12 ==> h[i] == i
    requires before == [30, 3, 9, 2, 1, 8, 1, 1, 1, 1, 1, 7]
    requires after == before[3 := 23]
    ensures Ordered(h, before) && Stale(h, after, 3)
  {
    assert before[1] == 3 && before[2] == 9 && before[3] == 2 && before[4] == 1 && before[5] == 8;
    forall i | 0 < i < 12 ensures before[i] <= before[Parent(i)] {
    }
    forall i | 0 < i < 12 && i != 3 ensures after[i] <= after[Parent(i)] {
    }
  }

  /** Such a heap exists: block 3 grows from 2 pages to 23 by absorbing freed pages and then
      block 7 on its right, and fixing it afterwards leaves block 11 above its parent. */
  lemma HazardHappens(h: seq<nat>, before: seq<nat>, after: seq<nat>)
    requires |h| == 12 && forall i :: 0 <= i < 12 ==> h[i] == i
    requires before == [30, 3, 9, 2, 1, 8, 1, 1, 1, 1, 1, 7]
    requires after == before[3 := 23]
    ensures Ordered(h, before) && Sized(h, after)
    ensures var r := Remove(h, after, 7);
      exists e :: 0 <= e < |r| && r[e] == 3 && !Ordered(Fix(r, after, e), after)
  {
    HazardExample(h, before, after);
    assert Above(3, 7);
    assert Key(h, after, 1) == 3 && Key(h, after, 11) == 7 && Key(h, after, 3) == 23;
    hide Remove, Fix, Stale, Ordered, OrderedExcept;
    assert Hazard(h, after, 7, 3);
    var e := RemoveStale(h, after, 7, 3);
  }
}
