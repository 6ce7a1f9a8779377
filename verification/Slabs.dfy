/** Slabs of equal blocks: each keeps a stack of its free block ids, and the slabs of a class
    with a free block form a doubly linked list. */
module Slabs {
  import opened Options
  import opened Blocks

  // ---------- the stack of free ids ----------

  /** Distinct ids below `n`. */
  ghost predicate IdStack(s: seq<nat>, n: nat)
  {
    && (forall k :: 0 <= k < |s| ==> s[k] < n)
    && (forall k, m :: 0 <= k < m < |s| ==> s[k] != s[m])
  }

  /** The blocks not on the stack. */
  ghost function Taken(s: seq<nat>, n: nat): set<nat>
  {
    set b | b in Run(0, n) && b !in s
  }

  lemma PushId(s: seq<nat>, n: nat, b: nat)
    requires IdStack(s, n) && b in Taken(s, n)
    ensures IdStack(s + [b], n) && Taken(s + [b], n) == Taken(s, n) - {b}
  {
  }

  lemma PopId(s: seq<nat>, n: nat)
    requires IdStack(s, n) && s != []
    ensures s[|s| - 1] < n && s[|s| - 1] !in Taken(s, n) && IdStack(s[..|s| - 1], n)
    ensures Taken(s[..|s| - 1], n) == Taken(s, n) + {s[|s| - 1]}
  {
    var b, r := s[|s| - 1], s[..|s| - 1];
    assert s == r + [b];
    assert b in s;
    assert b !in r;
  }

  lemma {:induction false} StackSize(s: seq<nat>, n: nat)
    requires IdStack(s, n)
    ensures |Taken(s, n)| + |s| == n
  {
    if s == [] {
      RunSize(0, n);
      assert Taken(s, n) == Run(0, n);
    } else {
      PopId(s, n);
      StackSize(s[..|s| - 1], n);
    }
  }

  // ---------- the linked lists ----------

  /** The links of `chain`'s members point along it in both directions. */
  ghost predicate Chained(left: seq<nat>, right: seq<nat>, head: nat, chain: seq<nat>)
  {
    && head == At(chain, 0)
    && (forall k, m :: 0 <= k < m < |chain| ==> chain[k] != chain[m])
    && forall k :: 0 <= k < |chain| ==>
      && chain[k] < |left| && chain[k] < |right|
      && left[chain[k]] == At(chain, k as int - 1) && right[chain[k]] == At(chain, k + 1)
  }

  function At(chain: seq<nat>, k: int): nat
  {
    if 0 <= k < |chain| then chain[k] else NIL
  }

  /** `s` leaves the links; its neighbours point past it. */
  ghost function LeftWithout(left: seq<nat>, right: seq<nat>, s: nat): seq<nat>
    requires s < |left| && s < |right|
  {
    (if right[s] < |left| then left[right[s] := left[s]] else left)[s := NIL]
  }

  ghost function RightWithout(left: seq<nat>, right: seq<nat>, s: nat): seq<nat>
    requires s < |left| && s < |right|
  {
    (if left[s] < |right| then right[left[s] := right[s]] else right)[s := NIL]
  }

  /** Member `m` of a chain that `k` leaves. */
  lemma UnlinkedAt(left: seq<nat>, right: seq<nat>, head: nat, chain: seq<nat>, k: nat, m: nat)
    requires Chained(left, right, head, chain) && k < |chain| && m < |chain| && m != k && |left| == |right| <= NIL
    ensures chain[k] < |left| && chain[m] < |left|
    ensures LeftWithout(left, right, chain[k])[chain[m]] == At(chain, if m == k + 1 then k as int - 1 else m as int - 1)
    ensures RightWithout(left, right, chain[k])[chain[m]] == At(chain, if m + 1 == k then k + 1 else m + 1)
  {
    var s := chain[k];
    assert chain[m] != s;
    assert right[s] == At(chain, k + 1) && left[s] == At(chain, k as int - 1);
    assert left[chain[m]] == At(chain, m as int - 1) && right[chain[m]] == At(chain, m + 1);
    assert right[s] == chain[m] <==> m == k + 1;
    assert left[s] == chain[m] <==> m + 1 == k;
  }

  lemma AtSpliced(chain: seq<nat>, k: nat, i: int)
    requires k < |chain|
    ensures At(chain[..k] + chain[k + 1..], i) == At(chain, if i < k then i else i + 1)
  {
  }

  lemma Unlinked(left: seq<nat>, right: seq<nat>, head: nat, chain: seq<nat>, k: nat)
    requires Chained(left, right, head, chain) && k < |chain| && |left| == |right| <= NIL
    ensures chain[k] < |left|
    ensures Chained(LeftWithout(left, right, chain[k]), RightWithout(left, right, chain[k]),
                    if k == 0 then right[chain[k]] else head, chain[..k] + chain[k + 1..])
  {
    hide LeftWithout, RightWithout, Chained, At;
    ChainGives(left, right, head, chain, k);
    var s := chain[k];
    var l, r, c := LeftWithout(left, right, s), RightWithout(left, right, s), chain[..k] + chain[k + 1..];
    SameLengths(left, right, s);
    forall i | 0 <= i < |c| ensures LinkedAt(l, r, c, i) {
      var m := if i < k then i else i + 1;
      UnlinkedAt(left, right, head, chain, k, m);
      AtSpliced(chain, k, i as int - 1);
      AtSpliced(chain, k, i + 1);
    }
    AtSpliced(chain, k, 0);
    MakeChained(l, r, if k == 0 then right[s] else head, c);
  }

  ghost predicate LinkedAt(left: seq<nat>, right: seq<nat>, chain: seq<nat>, k: nat)
    requires k < |chain|
  {
    && chain[k] < |left| && chain[k] < |right|
    && left[chain[k]] == At(chain, k as int - 1) && right[chain[k]] == At(chain, k + 1)
  }

  lemma ChainGives(left: seq<nat>, right: seq<nat>, head: nat, chain: seq<nat>, k: nat)
    requires Chained(left, right, head, chain) && k < |chain|
    ensures head == At(chain, 0) && LinkedAt(left, right, chain, k)
    ensures forall k, m :: 0 <= k < m < |chain| ==> chain[k] != chain[m]
  {
  }

  lemma SameLengths(left: seq<nat>, right: seq<nat>, s: nat)
    requires s < |left| && s < |right|
    ensures |LeftWithout(left, right, s)| == |left| && |RightWithout(left, right, s)| == |right|
  {
  }

  lemma MakeChained(left: seq<nat>, right: seq<nat>, head: nat, chain: seq<nat>)
    requires head == At(chain, 0) && forall k :: 0 <= k < |chain| ==> LinkedAt(left, right, chain, k)
    requires forall k, m :: 0 <= k < m < |chain| ==> chain[k] != chain[m]
    ensures Chained(left, right, head, chain)
  {
    forall k | 0 <= k < |chain|
      ensures chain[k] < |left| && chain[k] < |right|
      ensures left[chain[k]] == At(chain, k as int - 1) && right[chain[k]] == At(chain, k + 1)
    {
      assert LinkedAt(left, right, chain, k);
    }
  }

  /** Another list with no member in common is not disturbed. */
  lemma Elsewhere(left: seq<nat>, right: seq<nat>, left': seq<nat>, right': seq<nat>, head: nat, chain: seq<nat>)
    requires Chained(left, right, head, chain) && |left'| == |left| && |right'| == |right|
    requires forall k :: 0 <= k < |chain| ==> left'[chain[k]] == left[chain[k]] && right'[chain[k]] == right[chain[k]]
    ensures Chained(left', right', head, chain)
  {
  }

  lemma Prepended(left: seq<nat>, right: seq<nat>, head: nat, chain: seq<nat>, s: nat, left': seq<nat>,
      right': seq<nat>)
    requires Chained(left, right, head, chain) && s !in chain && s < |left| == |right| <= NIL
    requires left' == (if head < |left| then left[head := s] else left)[s := NIL] && right' == right[s := head]
    ensures Chained(left', right', s, [s] + chain)
  {
    hide Chained, At;
    var c := [s] + chain;
    assert At(c, 0) == s by { FrontAt(chain, s, 0); }
    if chain != [] { ChainGives(left, right, head, chain, 0); }
    forall i | 0 <= i < |c| ensures LinkedAt(left', right', c, i) {
      FrontAt(chain, s, i as int - 1);
      FrontAt(chain, s, i + 1);
      if i > 0 { ChainGives(left, right, head, chain, i - 1); }
      PrependedAt(left, right, head, chain, s, left', right', i);
    }
    forall i, j | 0 <= i < j < |c| ensures c[i] != c[j] {
      assert c[j] == chain[j - 1] && chain[j - 1] in chain;
      if i > 0 { assert c[i] == chain[i - 1]; }
    }
    MakeChained(left', right', s, c);
  }

  lemma FrontAt(chain: seq<nat>, s: nat, i: int)
    ensures At([s] + chain, i) == if i == 0 then s else if i < 0 then NIL else At(chain, i - 1)
  {
  }

  lemma PrependedAt(left: seq<nat>, right: seq<nat>, head: nat, chain: seq<nat>, s: nat, left': seq<nat>,
                    right': seq<nat>, i: nat)
    requires Chained(left, right, head, chain) && s !in chain && s < |left| == |right| <= NIL && i <= |chain|
    requires left' == (if head < |left| then left[head := s] else left)[s := NIL] && right' == right[s := head]
    ensures LinkedAt(left', right', [s] + chain, i)
  {
    hide At, Chained;
    FrontAt(chain, s, i as int - 1);
    FrontAt(chain, s, i + 1);
    HeadIs(left, right, head, chain);
    if i > 0 {
      ChainGives(left, right, head, chain, i - 1);
      assert ([s] + chain)[i] == chain[i - 1] && chain[i - 1] in chain;
      if i > 1 { ChainGives(left, right, head, chain, 0); }
    }
  }

  lemma HeadIs(left: seq<nat>, right: seq<nat>, head: nat, chain: seq<nat>)
    requires Chained(left, right, head, chain) && |left| <= NIL
    ensures head == At(chain, 0) && At(chain, -1) == NIL
    ensures if chain == [] then head == NIL else head == chain[0] && head < |left|
  {
  }

  // ---------- one list per size class ----------

  ghost predicate Links(left: seq<nat>, right: seq<nat>, heads: seq<nat>, chains: seq<seq<nat>>)
  {
    |heads| == |chains| && forall c :: 0 <= c < |chains| ==> Chained(left, right, heads[c], chains[c])
  }

  ghost predicate Apart(chains: seq<seq<nat>>)
  {
    forall c: nat, d: nat, e: nat ::
      0 <= c < |chains| && 0 <= d < |chains| && e in chains[c] && e in chains[d] ==> c == d
  }

  function Spliced(chain: seq<nat>, k: nat): seq<nat>
    requires k < |chain|
  {
    chain[..k] + chain[k + 1..]
  }

  /** Links outside a chain survive when one of its members is taken out. */
  lemma OtherChain(left: seq<nat>, right: seq<nat>, head: nat, chain: seq<nat>, k: nat, head': nat, other: seq<nat>)
    requires Chained(left, right, head, chain) && k < |chain| && Chained(left, right, head', other)
    requires |left| == |right| <= NIL && forall e :: e in other ==> e !in chain
    ensures chain[k] < |left|
    ensures Chained(LeftWithout(left, right, chain[k]), RightWithout(left, right, chain[k]), head', other)
  {
    ChainGives(left, right, head, chain, k);
    var s := chain[k];
    SameLengths(left, right, s);
    forall m | 0 <= m < |other|
      ensures other[m] < |left| && LeftWithout(left, right, s)[other[m]] == left[other[m]]
      ensures RightWithout(left, right, s)[other[m]] == right[other[m]]
    {
      ChainGives(left, right, head', other, m);
      assert other[m] in other;
      if right[s] < |left| { assert right[s] == chain[k + 1] && chain[k + 1] in chain; }
      if left[s] < |left| { assert left[s] == chain[k - 1] && chain[k - 1] in chain; }
    }
    Elsewhere(left, right, LeftWithout(left, right, s), RightWithout(left, right, s), head', other);
  }

  lemma UnlinkLinks(left: seq<nat>, right: seq<nat>, heads: seq<nat>, chains: seq<seq<nat>>, c: nat, k: nat)
    requires Links(left, right, heads, chains) && Apart(chains) && c < |chains| && k < |chains[c]|
    requires |left| == |right| <= NIL
    ensures chains[c][k] < |left|
    ensures var s := chains[c][k];
      Links(LeftWithout(left, right, s), RightWithout(left, right, s),
            heads[c := if k == 0 then right[s] else heads[c]], chains[c := Spliced(chains[c], k)])
  {
    hide Chained, LeftWithout, RightWithout;
    Unlinked(left, right, heads[c], chains[c], k);
    forall d | 0 <= d < |chains| && d != c
      ensures Chained(LeftWithout(left, right, chains[c][k]), RightWithout(left, right, chains[c][k]), heads[d],
          chains[d])
    {
      OtherChain(left, right, heads[c], chains[c], k, heads[d], chains[d]);
    }
  }

  lemma PrependLinks(left: seq<nat>, right: seq<nat>, heads: seq<nat>, chains: seq<seq<nat>>, c: nat, s: nat)
    requires Links(left, right, heads, chains) && Apart(chains) && c < |chains| && |left| == |right| <= NIL
    requires s < |left| && forall d :: 0 <= d < |chains| ==> s !in chains[d]
    ensures var left' := (if heads[c] < |left| then left[heads[c] := s] else left)[s := NIL];
      Links(left', right[s := heads[c]], heads[c := s], chains[c := [s] + chains[c]])
  {
    var left' := (if heads[c] < |left| then left[heads[c] := s] else left)[s := NIL];
    var right' := right[s := heads[c]];
    Prepended(left, right, heads[c], chains[c], s, left', right');
    forall d | 0 <= d < |chains| && d != c ensures Chained(left', right', heads[d], chains[d]) {
      forall m | 0 <= m < |chains[d]|
        ensures chains[d][m] < |left| && left'[chains[d][m]] == left[chains[d][m]]
          && right'[chains[d][m]] == right[chains[d][m]]
      {
        assert chains[d][m] in chains[d];
        if heads[c] < |left| { assert heads[c] == chains[c][0] && chains[c][0] in chains[c]; }
      }
      Elsewhere(left, right, left', right', heads[d], chains[d]);
    }
  }

  // ---------- the whole pool ----------

  /** `lists[s]` is the array in slab `s` whose first `count[s]` entries are its free stack;
      `blocks` gives the number of blocks of each class. */
  datatype Pool = Pool(left: seq<nat>, right: seq<nat>, count: seq<nat>, size: seq<nat>, heads: seq<nat>,
                       lists: map<nat, seq<nat>>, slabs: set<nat>, chains: seq<seq<nat>>)

  ghost predicate Stocked(p: Pool, blocks: seq<nat>, s: nat)
  {
    && s < |p.count| == |p.size| && p.size[s] < |blocks| && s in p.lists
    && p.count[s] <= |p.lists[s]| == blocks[p.size[s]]
    && IdStack(p.lists[s][..p.count[s]], blocks[p.size[s]])
  }

  /** The list of a class holds exactly its slabs with a free block. */
  ghost predicate Partial(p: Pool)
  {
    forall c: nat, s: nat :: 0 <= c < |p.chains| ==>
      (s in p.chains[c] <==> s in p.slabs && s < |p.size| && s < |p.count| && p.size[s] == c && p.count[s] > 0)
  }

  ghost predicate Stocks(p: Pool, blocks: seq<nat>)
  {
    && |p.left| == |p.right| == |p.count| == |p.size| <= NIL && |p.heads| == |p.chains| == |blocks|
    && forall s :: s in p.slabs ==> Stocked(p, blocks, s)
  }

  /** Every slab with a free block is in the list of its class. */
  ghost predicate Listed(p: Pool)
  {
    Links(p.left, p.right, p.heads, p.chains) && Partial(p)
  }

  ghost predicate Sound(p: Pool, blocks: seq<nat>)
  {
    Stocks(p, blocks) && Listed(p)
  }

  /** The blocks handed out, named by slab and block id. */
  ghost function Live(p: Pool, blocks: seq<nat>): set<(nat, nat)>
  {
    set s, b | s in p.slabs && b in TakenFrom(p, blocks, s) :: (s, b)
  }

  ghost function TakenFrom(p: Pool, blocks: seq<nat>, s: nat): set<nat>
  {
    if s < |p.count| && s < |p.size| && p.size[s] < |blocks| && s in p.lists && p.count[s] <= |p.lists[s]|
    then Taken(p.lists[s][..p.count[s]], blocks[p.size[s]])
    else {}
  }

  lemma ChainsApart(p: Pool)
    requires Partial(p)
    ensures Apart(p.chains)
  {
    forall c: nat, d: nat, e: nat | 0 <= c < |p.chains| && 0 <= d < |p.chains| && e in p.chains[c] && e in p.chains[d]
      ensures c == d
    {
      InChain(p, c, e);
      InChain(p, d, e);
    }
  }

  lemma InChain(p: Pool, c: nat, e: nat)
    requires Partial(p) && c < |p.chains| && e in p.chains[c]
    ensures e in p.slabs && e < |p.size| && e < |p.count| && p.size[e] == c && p.count[e] > 0
  {
  }

  /** The head of a class's list, if it has one. */
  lemma HeadIsFirst(p: Pool, blocks: seq<nat>, c: nat)
    requires Sound(p, blocks) && c < |p.heads|
    ensures c < |p.chains| && p.heads[c] == At(p.chains[c], 0)
    ensures p.heads[c] == NIL ==> p.chains[c] == []
    ensures p.heads[c] != NIL ==> p.chains[c] != [] && p.heads[c] == p.chains[c][0] && p.heads[c] in p.slabs
    ensures p.heads[c] != NIL ==> Stocked(p, blocks, p.heads[c]) && p.count[p.heads[c]] > 0
    ensures p.heads[c] != NIL ==> p.size[p.heads[c]] == c && p.heads[c] < |p.left|
  {
    assert Chained(p.left, p.right, p.heads[c], p.chains[c]);
    if p.heads[c] != NIL { assert p.chains[c][0] in p.chains[c]; }
  }

  /** A block is taken off the stack of the slab at the head of its list; a slab that has none
      left leaves the list. */
  ghost function Popped(p: Pool, c: nat, s: nat): Pool
    requires c < |p.heads| && c < |p.chains| && s < |p.left| && s < |p.right| && s < |p.count| && p.count[s] > 0
  {
    var q := p.(count := p.count[s := p.count[s] - 1]);
    if p.count[s] == 1 then
      q.(left := LeftWithout(p.left, p.right, s), right := RightWithout(p.left, p.right, s),
         heads := p.heads[c := p.right[s]], chains := p.chains[c := Tail(p.chains[c])])
    else q
  }

  function Tail(chain: seq<nat>): seq<nat>
  {
    if chain == [] then [] else chain[1..]
  }

  lemma TakenAfter(p: Pool, q: Pool, blocks: seq<nat>, s: nat, before: set<nat>, after: set<nat>, b: nat)
    requires q.slabs == p.slabs && s in p.slabs && (b in before || b in after)
    requires TakenFrom(p, blocks, s) == before && TakenFrom(q, blocks, s) == after
    requires after == before + {b} || after == before - {b}
    requires forall r :: r in p.slabs && r != s ==> TakenFrom(q, blocks, r) == TakenFrom(p, blocks, r)
    ensures after == before + {b} ==> Live(q, blocks) == Live(p, blocks) + {(s, b)}
    ensures after == before - {b} && b in before ==> Live(q, blocks) == Live(p, blocks) - {(s, b)}
  {
    hide TakenFrom;
  }

  lemma PoppedKeeps(p: Pool, blocks: seq<nat>, c: nat)
    requires Sound(p, blocks) && c < |p.heads| && p.heads[c] != NIL
    ensures var s := p.heads[c];
      && c < |p.chains| && p.chains[c] != [] && s < |p.left| && s < |p.right| && s < |p.count| && p.count[s] > 0
      && Sound(Popped(p, c, s), blocks)
  {
    HeadIsFirst(p, blocks, c);
    ChainsApart(p);
    var s := p.heads[c];
    PoppedStocks(p, blocks, c, s);
    hide Stocked;
    if p.count[s] == 1 {
      UnlinkLinks(p.left, p.right, p.heads, p.chains, c, 0);
      SameLengths(p.left, p.right, s);
      assert Spliced(p.chains[c], 0) == p.chains[c][1..];
    }
    PoppedPartial(p, blocks, c, s);
  }

  lemma PoppedStocks(p: Pool, blocks: seq<nat>, c: nat, s: nat)
    requires Stocks(p, blocks) && c < |p.heads| && s in p.slabs && s < |p.count| && p.count[s] > 0
    ensures s < |p.left| && s < |p.right| && Stocks(Popped(p, c, s), blocks)
  {
    var q := Popped(p, c, s);
    forall r | r in p.slabs ensures Stocked(q, blocks, r) {
      assert Stocked(p, blocks, r);
      if r == s { PoppedStack(p, blocks, s); }
    }
    hide Stocked;
    SameLengths(p.left, p.right, s);
  }

  lemma PoppedStack(p: Pool, blocks: seq<nat>, s: nat)
    requires Stocked(p, blocks, s) && p.count[s] > 0
    ensures IdStack(p.lists[s][..p.count[s] - 1], blocks[p.size[s]])
  {
    var l := p.lists[s][..p.count[s]];
    PopId(l, blocks[p.size[s]]);
    assert l[..|l| - 1] == p.lists[s][..p.count[s] - 1];
  }

  lemma PoppedPartial(p: Pool, blocks: seq<nat>, c: nat, s: nat)
    requires Partial(p) && c < |p.heads| && c < |p.chains| && p.chains[c] != [] && s == p.chains[c][0]
    requires s < |p.left| && s < |p.right| && s < |p.count| && p.count[s] > 0
    requires Links(p.left, p.right, p.heads, p.chains)
    ensures Partial(Popped(p, c, s))
  {
    var q := Popped(p, c, s);
    assert Chained(p.left, p.right, p.heads[c], p.chains[c]);
    hide Links, Chained;
    forall d: nat, r: nat | 0 <= d < |q.chains|
      ensures r in q.chains[d] <==> r in q.slabs && r < |q.size| && r < |q.count| && q.size[r] == d && q.count[r] > 0
    {
      assert r in p.chains[d] <==> r in p.slabs && r < |p.size| && r < |p.count| && p.size[r] == d && p.count[r] > 0;
      RestOf(p.chains[c], r);
    }
  }

  lemma RestOf(chain: seq<nat>, r: nat)
    requires chain != []
    ensures r in chain <==> r == chain[0] || r in chain[1..]
  {
  }

  /** The block popped from the head's stack. */
  lemma PoppedLive(p: Pool, blocks: seq<nat>, c: nat)
    requires Sturdy(p, blocks) && c < |p.heads| && p.heads[c] != NIL
    ensures var s := p.heads[c];
      && s in p.slabs && s in p.lists && s < |p.count| && 0 < p.count[s] <= |p.lists[s]|
      && c < |p.chains| && s < |p.left| && s < |p.right| && c < |blocks|
    ensures var s := p.heads[c]; var b := p.lists[s][p.count[s] - 1];
      b < blocks[c] && (s, b) !in Live(p, blocks) && Live(Popped(p, c, s), blocks) == Live(p, blocks) + {(s, b)}
  {
    assert Headed(p, c) && Stocked(p, blocks, p.heads[c]);
    var s := p.heads[c];
    var q := Popped(p, c, s);
    var l, b := p.lists[s][..p.count[s]], p.lists[s][p.count[s] - 1];
    PopId(l, blocks[c]);
    assert l[..|l| - 1] == q.lists[s][..q.count[s]];
    hide Sound, Links, Partial, Taken;
    TakenAfter(p, q, blocks, s, TakenFrom(p, blocks, s), TakenFrom(q, blocks, s), b);
  }

  /** A slab of class `c` joins as the only one with a free block; its stack hands out ids in
      increasing order. */
  ghost function Opened(p: Pool, blocks: seq<nat>, c: nat, s: nat): Pool
    requires c < |p.heads| && c < |p.chains| && c < |blocks|
    requires s < |p.left| && s < |p.right| && s < |p.count| && s < |p.size|
  {
    Pool(p.left[s := NIL], p.right[s := NIL], p.count[s := blocks[c]], p.size[s := c], p.heads[c := s],
         p.lists[s := Descending(blocks[c])], p.slabs + {s}, p.chains[c := [s]])
  }

  function Descending(n: nat): (r: seq<nat>)
    ensures |r| == n && forall i :: 0 <= i < n ==> r[i] == n - 1 - i
  {
    seq(n, i requires 0 <= i < n => n - 1 - i)
  }

  lemma DescendingStack(n: nat)
    ensures IdStack(Descending(n), n) && Taken(Descending(n), n) == {}
  {
    var r := Descending(n);
    forall b: nat | b < n ensures b in r {
      assert r[n - 1 - b] == b;
    }
  }

  lemma OpenedLinks(p: Pool, blocks: seq<nat>, c: nat, s: nat)
    requires Sound(p, blocks) && c < |p.heads| && p.heads[c] == NIL && s !in p.slabs && s < |p.left|
    ensures c < |p.chains| && c < |blocks| && s < |p.count| && s < |p.size| && s < |p.right|
    ensures var q := Opened(p, blocks, c, s); Links(q.left, q.right, q.heads, q.chains)
  {
    HeadIsFirst(p, blocks, c);
    var q := Opened(p, blocks, c, s);
    forall d: nat | d < |q.chains| ensures Chained(q.left, q.right, q.heads[d], q.chains[d]) {
      if d != c {
        assert Chained(p.left, p.right, p.heads[d], p.chains[d]);
        forall k | 0 <= k < |p.chains[d]| ensures p.chains[d][k] != s {
          InChain(p, d, p.chains[d][k]);
        }
        Elsewhere(p.left, p.right, q.left, q.right, p.heads[d], p.chains[d]);
      }
    }
  }

  lemma OpenedKeeps(p: Pool, blocks: seq<nat>, c: nat, s: nat)
    requires Sound(p, blocks) && c < |p.heads| && p.heads[c] == NIL && s !in p.slabs && s < |p.left|
    requires c < |blocks| && blocks[c] > 0
    ensures c < |p.chains| && s < |p.count| && s < |p.size| && s < |p.right|
    ensures Sound(Opened(p, blocks, c, s), blocks)
  {
    OpenedLinks(p, blocks, c, s);
    HeadIsFirst(p, blocks, c);
    OpenedStocks(p, blocks, c, s);
    OpenedPartial(p, blocks, c, s);
  }

  lemma OpenedStocks(p: Pool, blocks: seq<nat>, c: nat, s: nat)
    requires Stocks(p, blocks) && c < |p.heads| && s !in p.slabs && s < |p.left|
    ensures c < |p.chains| && c < |blocks| && s < |p.count| && s < |p.size| && s < |p.right|
    ensures Stocks(Opened(p, blocks, c, s), blocks) && Live(Opened(p, blocks, c, s), blocks) == Live(p, blocks)
  {
    var q := Opened(p, blocks, c, s);
    DescendingStack(blocks[c]);
    assert q.lists[s][..q.count[s]] == Descending(blocks[c]);
    forall r | r in q.slabs ensures Stocked(q, blocks, r) {
      if r != s { assert Stocked(p, blocks, r); }
    }
    hide Stocked;
    assert TakenFrom(q, blocks, s) == {};
    forall r | r in p.slabs ensures TakenFrom(q, blocks, r) == TakenFrom(p, blocks, r) {
    }
    hide TakenFrom;
    assert Live(q, blocks) == Live(p, blocks);
  }

  lemma OpenedPartial(p: Pool, blocks: seq<nat>, c: nat, s: nat)
    requires Partial(p) && c < |p.heads| && c < |p.chains| && p.chains[c] == [] && s !in p.slabs
    requires s < |p.left| && s < |p.right| && s < |p.count| && s < |p.size| && c < |blocks| && blocks[c] > 0
    ensures Partial(Opened(p, blocks, c, s))
  {
    var q := Opened(p, blocks, c, s);
    forall d: nat, r: nat | 0 <= d < |q.chains|
      ensures r in q.chains[d] <==> r in q.slabs && r < |q.size| && r < |q.count| && q.size[r] == d && q.count[r] > 0
    {
      assert r in p.chains[d] <==> r in p.slabs && r < |p.size| && r < |p.count| && p.size[r] == d && p.count[r] > 0;
    }
  }

  /** A slab may become the head of a list only if the list is empty: otherwise the slabs of the old
      list are in none any more, however the lists are read. */
  lemma OpenedExactly(p: Pool, blocks: seq<nat>, c: nat, s: nat)
    requires Sound(p, blocks) && c < |p.heads| && s !in p.slabs && s < |p.left| && c < |blocks| && blocks[c] > 0
    ensures c < |p.chains| && s < |p.count| && s < |p.size| && s < |p.right|
    ensures var q := Opened(p, blocks, c, s);
      && (Sound(q, blocks) <==> p.heads[c] == NIL)
      && (forall chains :: Sound(q.(chains := chains), blocks) ==> p.heads[c] == NIL)
  {
    HeadIsFirst(p, blocks, c);
    var q := Opened(p, blocks, c, s);
    hide Sound, Opened;
    forall chains | Sound(q.(chains := chains), blocks) ensures p.heads[c] == NIL {
      OldListEmpty(p, blocks, c, s, chains);
    }
    assert q == q.(chains := q.chains);
    if p.heads[c] == NIL { OpenedKeeps(p, blocks, c, s); }
  }

  lemma OldListEmpty(p: Pool, blocks: seq<nat>, c: nat, s: nat, chains: seq<seq<nat>>)
    requires Sound(p, blocks) && c < |p.heads| && s !in p.slabs && s < |p.left| && c < |blocks| && blocks[c] > 0
    requires c < |p.chains| && s < |p.count| && s < |p.size| && s < |p.right|
    requires Sound(Opened(p, blocks, c, s).(chains := chains), blocks)
    ensures p.heads[c] == NIL
  {
    HeadIsFirst(p, blocks, c);
    var q := Opened(p, blocks, c, s).(chains := chains);
    OnlyMember(q.left, q.right, s, chains[c]);
    forall r | r in p.slabs && r < |p.size| && p.size[r] == c ensures r < |p.count| ==> p.count[r] == 0 {
      assert Stocked(p, blocks, r);
      assert r in q.slabs && q.size[r] == c && q.count[r] == p.count[r] && r !in q.chains[c];
    }
  }

  lemma OnlyMember(left: seq<nat>, right: seq<nat>, s: nat, chain: seq<nat>)
    requires Chained(left, right, s, chain) && s < |right| == |left| <= NIL && right[s] == NIL
    ensures chain == [s]
  {
    assert chain != [] && At(chain, 1) == NIL;
    assert forall k :: 0 <= k < |chain| ==> chain[k] < NIL;
  }

  // ---------- giving a block back ----------

  ghost function Pushed(p: Pool, s: nat, b: nat): Pool
    requires s < |p.count| && s in p.lists && p.count[s] < |p.lists[s]|
  {
    var l: seq<nat> := p.lists[s][p.count[s] := b];
    p.(count := p.count[s := p.count[s] + 1], lists := p.lists[s := l])
  }

  /** A slab that was full returns to the front of its list. */
  ghost function Relisted(p: Pool, c: nat, s: nat): Pool
    requires c < |p.heads| && c < |p.chains| && s < |p.left| && s < |p.right|
  {
    p.(left := (if p.heads[c] < |p.left| then p.left[p.heads[c] := s] else p.left)[s := NIL],
       right := p.right[s := p.heads[c]], heads := p.heads[c := s], chains := p.chains[c := [s] + p.chains[c]])
  }

  /** An empty slab that is not alone leaves its list and is given up. */
  ghost function GivenUp(p: Pool, c: nat, s: nat): Pool
    requires c < |p.heads| && c < |p.chains| && s < |p.left| && s < |p.right|
  {
    p.(left := LeftWithout(p.left, p.right, s), right := RightWithout(p.left, p.right, s),
       heads := p.heads[c := if p.left[s] == NIL then p.right[s] else p.heads[c]],
       chains := p.chains[c := Sans(p.chains[c], s)], slabs := p.slabs - {s})
  }

  function Sans(chain: seq<nat>, s: nat): seq<nat>
  {
    if chain == [] then [] else if chain[0] == s then chain[1..] else [chain[0]] + Sans(chain[1..], s)
  }

  lemma {:induction false} SansAt(chain: seq<nat>, k: nat)
    requires k < |chain| && forall i, j :: 0 <= i < j < |chain| ==> chain[i] != chain[j]
    ensures Sans(chain, chain[k]) == Spliced(chain, k)
  {
    if k == 0 {
      assert Spliced(chain, 0) == chain[1..];
    } else {
      var r := chain[1..];
      assert forall i :: 0 <= i < |r| ==> r[i] == chain[i + 1];
      SansAt(r, k - 1);
      SplicedLater(chain, k);
      hide Spliced;
    }
  }

  lemma SplicedLater(chain: seq<nat>, k: nat)
    requires 0 < k < |chain|
    ensures Spliced(chain, k) == [chain[0]] + Spliced(chain[1..], k - 1)
  {
    assert chain[1..][..k - 1] == chain[1..k];
    assert chain[1..][k..] == chain[k + 1..];
    assert chain[..k] == [chain[0]] + chain[1..k];
  }

  /** A block in use has room on its slab's stack. */
  lemma RoomOnStack(p: Pool, blocks: seq<nat>, s: nat, b: nat)
    requires Stocks(p, blocks) && (s, b) in Live(p, blocks)
    ensures s in p.slabs && Stocked(p, blocks, s) && s < |p.left| && b in TakenFrom(p, blocks, s)
    ensures p.count[s] < |p.lists[s]| && p.size[s] < |p.heads| == |p.chains|
    ensures b in Taken(p.lists[s][..p.count[s]], blocks[p.size[s]])
  {
    assert Stocked(p, blocks, s);
    StackSize(p.lists[s][..p.count[s]], blocks[p.size[s]]);
  }

  lemma PushedKeeps(p: Pool, blocks: seq<nat>, s: nat, b: nat)
    requires Stocks(p, blocks) && (s, b) in Live(p, blocks)
    ensures s < |p.count| && s in p.lists && p.count[s] < |p.lists[s]|
    ensures var q := Pushed(p, s, b);
      && (forall r :: r in q.slabs ==> Stocked(q, blocks, r))
      && Live(q, blocks) == Live(p, blocks) - {(s, b)}
  {
    RoomOnStack(p, blocks, s, b);
    var q := Pushed(p, s, b);
    var l := p.lists[s][..p.count[s]];
    PushId(l, blocks[p.size[s]], b);
    assert q.lists[s][..q.count[s]] == l + [b];
    forall r | r in q.slabs ensures Stocked(q, blocks, r) {
      assert Stocked(p, blocks, r);
    }
    forall r | r in p.slabs && r != s ensures TakenFrom(q, blocks, r) == TakenFrom(p, blocks, r) {
    }
    hide Sound, Taken, Stocked;
    TakenAfter(p, q, blocks, s, TakenFrom(p, blocks, s), TakenFrom(q, blocks, s), b);
  }

  /** A stack that was not empty: the slab is in its list already. */
  lemma PushedPartial(p: Pool, blocks: seq<nat>, s: nat, b: nat)
    requires Partial(p) && s < |p.count| && s in p.lists && p.count[s] < |p.lists[s]| && p.count[s] > 0
    ensures Partial(Pushed(p, s, b))
  {
    var q := Pushed(p, s, b);
    forall d: nat, r: nat | 0 <= d < |q.chains|
      ensures r in q.chains[d] <==> r in q.slabs && r < |q.size| && r < |q.count| && q.size[r] == d && q.count[r] > 0
    {
      assert r in p.chains[d] <==> r in p.slabs && r < |p.size| && r < |p.count| && p.size[r] == d && p.count[r] > 0;
    }
  }

  lemma RelistedPartial(p: Pool, blocks: seq<nat>, s: nat, b: nat)
    requires Partial(p) && s in p.slabs && s < |p.count| && s < |p.size| && s in p.lists && p.count[s] < |p.lists[s]|
    requires p.count[s] == 0 && p.size[s] < |p.heads| && p.size[s] < |p.chains| && s < |p.left| && s < |p.right|
    ensures Partial(Relisted(Pushed(p, s, b), p.size[s], s))
  {
    var c := p.size[s];
    var q := Relisted(Pushed(p, s, b), c, s);
    forall d: nat, r: nat | 0 <= d < |q.chains|
      ensures r in q.chains[d] <==> r in q.slabs && r < |q.size| && r < |q.count| && q.size[r] == d && q.count[r] > 0
    {
      assert r in p.chains[d] <==> r in p.slabs && r < |p.size| && r < |p.count| && p.size[r] == d && p.count[r] > 0;
    }
  }

  lemma GivenUpPartial(p: Pool, blocks: seq<nat>, s: nat, k: nat)
    requires Partial(p) && s < |p.count| && s < |p.size| && p.size[s] < |p.heads| && p.size[s] < |p.chains|
    requires s < |p.left| && s < |p.right| && k < |p.chains[p.size[s]]| && p.chains[p.size[s]][k] == s
    requires Links(p.left, p.right, p.heads, p.chains)
    ensures Partial(GivenUp(p, p.size[s], s))
  {
    var c := p.size[s];
    var q := GivenUp(p, c, s);
    assert Chained(p.left, p.right, p.heads[c], p.chains[c]);
    hide Links;
    forall d: nat, r: nat | 0 <= d < |q.chains|
      ensures r in q.chains[d] <==> r in q.slabs && r < |q.size| && r < |q.count| && q.size[r] == d && q.count[r] > 0
    {
      assert r in p.chains[d] <==> r in p.slabs && r < |p.size| && r < |p.count| && p.size[r] == d && p.count[r] > 0;
      SansAt(p.chains[c], k);
      SplicedMember(p.chains[c], k, r);
    }
  }

  lemma SplicedMember(chain: seq<nat>, k: nat, r: nat)
    requires k < |chain| && forall i, j :: 0 <= i < j < |chain| ==> chain[i] != chain[j]
    ensures r in Spliced(chain, k) <==> r in chain && r != chain[k]
  {
    var c := Spliced(chain, k);
    if r in chain && r != chain[k] {
      var i :| 0 <= i < |chain| && chain[i] == r;
      assert c[if i < k then i else i - 1] == r;
    }
    if r in c {
      var i :| 0 <= i < |c| && c[i] == r;
      assert c[i] == if i < k then chain[i] else chain[i + 1];
    }
  }

  /** Only the stacks matter to what is handed out. */
  lemma LiveSame(p: Pool, q: Pool, blocks: seq<nat>)
    requires q.slabs == p.slabs && q.count == p.count && q.size == p.size && q.lists == p.lists
    ensures Live(q, blocks) == Live(p, blocks)
    ensures forall s :: Stocked(q, blocks, s) == Stocked(p, blocks, s)
  {
    forall s ensures Stocked(q, blocks, s) == Stocked(p, blocks, s)
      && TakenFrom(q, blocks, s) == TakenFrom(p, blocks, s) {
    }
    hide TakenFrom, Stocked;
  }

  /** The slab stays in its list. */
  lemma PushedSound(p: Pool, blocks: seq<nat>, s: nat, b: nat)
    requires Sound(p, blocks) && (s, b) in Live(p, blocks) && s < |p.count| && p.count[s] > 0
    ensures s in p.lists && p.count[s] < |p.lists[s]|
    ensures Sound(Pushed(p, s, b), blocks) && Live(Pushed(p, s, b), blocks) == Live(p, blocks) - {(s, b)}
  {
    PushedKeeps(p, blocks, s, b);
    PushedPartial(p, blocks, s, b);
    hide Links, Stocked, Partial, Live;
  }

  lemma RelistedSound(p: Pool, blocks: seq<nat>, s: nat, b: nat)
    requires Sound(p, blocks) && (s, b) in Live(p, blocks) && s < |p.count| && p.count[s] == 0
    ensures s in p.lists && p.count[s] < |p.lists[s]| && s < |p.left| == |p.right| && s < |p.size|
    ensures p.size[s] < |p.heads| == |p.chains|
    ensures var q := Relisted(Pushed(p, s, b), p.size[s], s);
      Sound(q, blocks) && Live(q, blocks) == Live(p, blocks) - {(s, b)}
  {
    RoomOnStack(p, blocks, s, b);
    PushedKeeps(p, blocks, s, b);
    RelistedPartial(p, blocks, s, b);
    ChainsApart(p);
    var c := p.size[s];
    forall d: nat | d < |p.chains| ensures s !in p.chains[d] {
    }
    hide Partial;
    PrependLinks(p.left, p.right, p.heads, p.chains, c, s);
    var q := Relisted(Pushed(p, s, b), c, s);
    LiveSame(Pushed(p, s, b), q, blocks);
    hide Links, Stocked, Live;
  }

  lemma FirstHasNone(left: seq<nat>, right: seq<nat>, head: nat, chain: seq<nat>, k: nat)
    requires Chained(left, right, head, chain) && k < |chain| && |left| <= NIL
    ensures chain[k] < |left| && chain[k] < |right|
    ensures left[chain[k]] == NIL <==> k == 0
    ensures right[chain[k]] == NIL <==> k == |chain| - 1
    ensures left[chain[k]] != NIL ==> left[chain[k]] < |left| && left[chain[k]] != chain[k]
    ensures right[chain[k]] != NIL ==> right[chain[k]] < |left| && right[chain[k]] != chain[k]
  {
    if k > 0 { assert chain[k - 1] < |left|; }
    if k < |chain| - 1 { assert chain[k + 1] < |left|; }
  }

  lemma GivenUpSound(p: Pool, blocks: seq<nat>, s: nat, b: nat, k: nat)
    requires Sound(p, blocks) && (s, b) in Live(p, blocks) && s < |p.count| && p.count[s] > 0
    requires s < |p.size| && p.size[s] < |p.chains| && p.size[s] < |p.heads| && p.size[s] < |blocks|
    requires p.count[s] + 1 == blocks[p.size[s]] && k < |p.chains[p.size[s]]| && p.chains[p.size[s]][k] == s
    ensures s in p.lists && p.count[s] < |p.lists[s]| && s < |p.left| == |p.right|
    ensures var q := GivenUp(Pushed(p, s, b), p.size[s], s);
      Sound(q, blocks) && Live(q, blocks) == Live(p, blocks) - {(s, b)}
  {
    var c := p.size[s];
    RoomOnStack(p, blocks, s, b);
    PushedSound(p, blocks, s, b);
    var m := Pushed(p, s, b);
    ChainsApart(m);
    GivenUpPartial(m, blocks, s, k);
    UnlinkLinks(m.left, m.right, m.heads, m.chains, c, k);
    SameLengths(m.left, m.right, s);
    FirstHasNone(m.left, m.right, m.heads[c], m.chains[c], k);
    EmptySlab(m, blocks, s);
    GivenUpLive(m, blocks, s);
    assert Chained(m.left, m.right, m.heads[c], m.chains[c]);
    SansAt(m.chains[c], k);
    hide Links, Partial, Live, LeftWithout, RightWithout;
  }

  lemma EmptySlab(p: Pool, blocks: seq<nat>, s: nat)
    requires Stocked(p, blocks, s) && p.count[s] == blocks[p.size[s]]
    ensures TakenFrom(p, blocks, s) == {}
  {
    StackSize(p.lists[s][..p.count[s]], blocks[p.size[s]]);
  }

  lemma GivenUpLive(p: Pool, blocks: seq<nat>, s: nat)
    requires s in p.slabs && TakenFrom(p, blocks, s) == {} && s < |p.size| && s < |p.left| && s < |p.right|
    requires p.size[s] < |p.heads| && p.size[s] < |p.chains|
    requires forall r :: r in p.slabs ==> Stocked(p, blocks, r)
    ensures var q := GivenUp(p, p.size[s], s);
      && Live(q, blocks) == Live(p, blocks) && (forall r :: r in q.slabs ==> Stocked(q, blocks, r))
  {
    var q := GivenUp(p, p.size[s], s);
    var m := q.(slabs := p.slabs);
    LiveSame(p, m, blocks);
    forall r ensures TakenFrom(q, blocks, r) == TakenFrom(m, blocks, r)
      && Stocked(q, blocks, r) == Stocked(m, blocks, r) {
    }
    assert TakenFrom(m, blocks, s) == {};
    hide TakenFrom, Stocked;
  }

  /** A slab with a block handed out and one free is in its list, somewhere. */
  lemma Position(p: Pool, blocks: seq<nat>, s: nat) returns (k: nat)
    requires Sound(p, blocks) && s in p.slabs && s < |p.count| && p.count[s] > 0
    ensures s < |p.size| && p.size[s] < |p.chains| && k < |p.chains[p.size[s]]| && p.chains[p.size[s]][k] == s
    ensures p.size[s] < |p.heads| && s < |p.left| && s < |p.right|
    ensures (p.left[s] != NIL || p.right[s] != NIL) <==> |p.chains[p.size[s]]| > 1
    ensures p.left[s] != NIL ==> p.left[s] < |p.left| && p.left[s] != s
    ensures p.right[s] != NIL ==> p.right[s] < |p.left| && p.right[s] != s
  {
    assert Stocked(p, blocks, s);
    var c := p.size[s];
    assert s in p.chains[c];
    k :| 0 <= k < |p.chains[c]| && p.chains[c][k] == s;
    FirstHasNone(p.left, p.right, p.heads[c], p.chains[c], k);
  }

  /** What is handed out of a slab and what is on its stack add up, and the slab is in the list of
      its class exactly when a block of it is not handed out. */
  lemma SlabAccounts(p: Pool, blocks: seq<nat>, s: nat)
    requires Sound(p, blocks) && s in p.slabs
    ensures Stocked(p, blocks, s) && |TakenFrom(p, blocks, s)| + p.count[s] == blocks[p.size[s]]
    ensures p.size[s] < |p.chains|
    ensures s in p.chains[p.size[s]] <==> exists b: nat :: b < blocks[p.size[s]] && (s, b) !in Live(p, blocks)
    ensures forall b: nat :: (s, b) in Live(p, blocks) ==> b < blocks[p.size[s]]
  {
    assert Stocked(p, blocks, s);
    var n, c := blocks[p.size[s]], p.size[s];
    var l := p.lists[s][..p.count[s]];
    StackSize(l, n);
    assert forall b: nat :: (s, b) in Live(p, blocks) <==> b in Taken(l, n);
    assert s in p.chains[c] <==> p.count[s] > 0;
    hide Live, Partial, Links;
    if p.count[s] > 0 {
      assert l[0] in l && l[0] !in Taken(l, n);
    }
    if b: nat :| b < n && b !in Taken(l, n) {
      assert b in Run(0, n) && b in l;
    }
  }

  // ---------- what holds even when slabs are forgotten ----------

  /** `b` follows `a` in a list. */
  ghost predicate Follows(p: Pool, a: nat, b: nat)
  {
    && a in p.slabs && b in p.slabs && a < |p.right| && b < |p.left| && a < |p.size| && b < |p.size|
    && p.size[a] == p.size[b] && p.right[a] == b && p.left[b] == a
  }

  /** Links are mutual, stay within the class, and full slabs have none. */
  ghost predicate Mutual(p: Pool, s: nat)
  {
    && s < |p.left| && s < |p.right| && s < |p.count|
    && (p.left[s] == NIL || Follows(p, p.left[s], s)) && (p.right[s] == NIL || Follows(p, s, p.right[s]))
    && (p.count[s] == 0 ==> p.left[s] == NIL && p.right[s] == NIL)
  }

  /** A list begins with a slab of its class that has a free block. */
  ghost predicate Headed(p: Pool, c: nat)
    requires c < |p.heads|
  {
    var s := p.heads[c];
    s == NIL || (s in p.slabs && s < |p.size| && s < |p.left| && s < |p.count| && p.size[s] == c
                 && p.left[s] == NIL && p.count[s] > 0)
  }

  /** Nothing is handed out twice, whether or not every slab with a free block is in a list. */
  ghost predicate Sturdy(p: Pool, blocks: seq<nat>)
  {
    && Stocks(p, blocks) && (forall s :: s in p.slabs ==> Mutual(p, s))
    && forall c :: 0 <= c < |p.heads| ==> Headed(p, c)
  }

  lemma InBounds(p: Pool, s: nat)
    requires Mutual(p, s)
    ensures s < |p.left| && s < |p.right|
    ensures (p.left[s] == NIL || p.left[s] < |p.right|) && (p.right[s] == NIL || p.right[s] < |p.left|)
  {
  }

  lemma HeadOfList(p: Pool, blocks: seq<nat>, c: nat)
    requires Sturdy(p, blocks) && c < |p.heads| && p.heads[c] != NIL
    ensures |p.left| == |p.right| <= NIL
    ensures var s := p.heads[c];
      && s in p.slabs && s < |p.size| && s < |p.left| && s < |p.right| && s < |p.count| && p.size[s] == c
      && p.left[s] == NIL && p.count[s] > 0 && (p.right[s] == NIL || p.right[s] < |p.left|)
  {
    assert Headed(p, c);
    assert Mutual(p, p.heads[c]);
  }

  lemma PoppedLinks(p: Pool, s: nat)
    requires s < |p.left| == |p.right| <= NIL && p.left[s] == NIL && (p.right[s] == NIL || p.right[s] < |p.left|)
    ensures LeftWithout(p.left, p.right, s)
         == (if p.right[s] != NIL then p.left[p.right[s] := NIL] else p.left)[s := NIL]
    ensures RightWithout(p.left, p.right, s) == p.right[s := NIL]
  {
  }

  lemma OpenedSturdy(p: Pool, blocks: seq<nat>, c: nat, s: nat)
    requires Sturdy(p, blocks) && c < |p.heads| && s !in p.slabs && s < |p.left| && c < |blocks| && blocks[c] > 0
    ensures c < |p.chains| && s < |p.count| && s < |p.size| && s < |p.right|
    ensures Sturdy(Opened(p, blocks, c, s), blocks)
  {
    OpenedStocks(p, blocks, c, s);
    hide Stocked, Descending;
    var q := Opened(p, blocks, c, s);
    forall r | r in q.slabs ensures Mutual(q, r) {
      if r != s { assert Mutual(p, r); }
    }
    forall d | 0 <= d < |q.heads| ensures Headed(q, d) {
      assert Headed(p, d);
    }
  }

  lemma PoppedListed(p: Pool, blocks: seq<nat>, c: nat)
    requires Sturdy(p, blocks) && Listed(p) && c < |p.heads| && p.heads[c] != NIL
    ensures var s := p.heads[c];
      && c < |p.chains| && s < |p.left| && s < |p.right| && s < |p.count| && p.count[s] > 0
      && Listed(Popped(p, c, s))
  {
    hide Listed, Mutual, Headed, Popped;
    PoppedKeeps(p, blocks, c);
  }

  lemma PoppedSturdy(p: Pool, blocks: seq<nat>, c: nat)
    requires Sturdy(p, blocks) && c < |p.heads| && p.heads[c] != NIL
    ensures var s := p.heads[c];
      && c < |p.chains| && s < |p.left| && s < |p.right| && s < |p.count| && p.count[s] > 0
      && Sturdy(Popped(p, c, s), blocks)
  {
    assert Headed(p, c);
    var s := p.heads[c];
    PoppedStocks(p, blocks, c, s);
    hide Stocked;
    var q := Popped(p, c, s);
    assert Mutual(p, s);
    forall r | r in q.slabs ensures Mutual(q, r) {
      assert Mutual(p, r);
    }
    forall d | 0 <= d < |q.heads| ensures Headed(q, d) {
      assert Headed(p, d);
    }
  }

  lemma PushedSturdy(p: Pool, blocks: seq<nat>, s: nat, b: nat)
    requires Sturdy(p, blocks) && (s, b) in Live(p, blocks) && s < |p.count| && p.count[s] > 0
    ensures s in p.lists && p.count[s] < |p.lists[s]|
    ensures Sturdy(Pushed(p, s, b), blocks)
  {
    PushedKeeps(p, blocks, s, b);
    hide Stocked, Live;
    var q := Pushed(p, s, b);
    forall r | r in q.slabs ensures Mutual(q, r) {
      assert Mutual(p, r);
    }
    forall d | 0 <= d < |q.heads| ensures Headed(q, d) {
      assert Headed(p, d);
    }
  }

  lemma RelistedSturdy(p: Pool, blocks: seq<nat>, s: nat, b: nat)
    requires Sturdy(p, blocks) && (s, b) in Live(p, blocks) && s < |p.count| && p.count[s] == 0
    ensures s in p.lists && p.count[s] < |p.lists[s]| && s < |p.left| == |p.right| && s < |p.size|
    ensures p.size[s] < |p.heads| == |p.chains|
    ensures var q := Relisted(Pushed(p, s, b), p.size[s], s);
      Sturdy(q, blocks) && Live(q, blocks) == Live(p, blocks) - {(s, b)}
  {
    RoomOnStack(p, blocks, s, b);
    PushedKeeps(p, blocks, s, b);
    var c := p.size[s];
    var q := Relisted(Pushed(p, s, b), c, s);
    LiveSame(Pushed(p, s, b), q, blocks);
    hide Stocked, Live;
    assert Mutual(p, s) && Headed(p, c);
    forall r | r in q.slabs ensures Mutual(q, r) {
      assert Mutual(p, r);
    }
    forall d | 0 <= d < |q.heads| ensures Headed(q, d) {
      assert Headed(p, d);
    }
  }

  lemma GivenUpSturdy(p: Pool, blocks: seq<nat>, s: nat)
    requires Sturdy(p, blocks) && s in p.slabs && s < |p.count| && s < |p.size| && p.size[s] < |blocks|
    requires p.count[s] == blocks[p.size[s]]
    ensures s < |p.left| == |p.right| && p.size[s] < |p.heads| == |p.chains|
    ensures var q := GivenUp(p, p.size[s], s);
      Sturdy(q, blocks) && Live(q, blocks) == Live(p, blocks)
  {
    assert Stocked(p, blocks, s);
    EmptySlab(p, blocks, s);
    hide TakenFrom;
    GivenUpLive(p, blocks, s);
    hide Stocked, Live, LeftWithout, RightWithout, Mutual, Headed;
    var c := p.size[s];
    var q := GivenUp(p, c, s);
    SameLengths(p.left, p.right, s);
    forall r | r in q.slabs ensures Mutual(q, r) {
      GivenUpMutual(p, c, s, r);
    }
    forall d | 0 <= d < |q.heads| ensures Headed(q, d) {
      assert Headed(p, d);
      GivenUpHeaded(p, s, d);
    }
  }

  lemma GivenUpMutual(p: Pool, c: nat, s: nat, r: nat)
    requires c < |p.heads| && c < |p.chains| && Mutual(p, s) && Mutual(p, r) && r != s && r in p.slabs
    requires |p.left| == |p.right| == |p.count| == |p.size| <= NIL
    ensures Mutual(GivenUp(p, c, s), r)
  {
  }

  lemma GivenUpHeaded(p: Pool, s: nat, d: nat)
    requires d < |p.heads| == |p.chains| && Mutual(p, s) && Headed(p, d) && s in p.slabs
    requires |p.left| == |p.right| == |p.count| == |p.size| <= NIL && p.size[s] < |p.heads|
    requires p.right[s] == NIL || p.count[p.right[s]] > 0
    ensures Headed(GivenUp(p, p.size[s], s), d)
  {
  }

  /** A slab with a free block is not in the list of its class. */
  ghost predicate Lost(p: Pool, r: nat)
  {
    && r in p.slabs && r < |p.count| && r < |p.size| && p.count[r] > 0
    && p.size[r] < |p.chains| && r !in p.chains[p.size[r]]
  }

  /** A slab other than `s` is lost. */
  ghost predicate Displaced(p: Pool, s: nat)
  {
    exists r :: r != s && Lost(p, r)
  }

  lemma DisplacedUnlisted(p: Pool, s: nat)
    requires Displaced(p, s)
    ensures !Listed(p)
  {
  }

  lemma OpenedDisplaces(p: Pool, blocks: seq<nat>, c: nat, s: nat)
    requires Sound(p, blocks) && c < |p.heads| && s !in p.slabs && s < |p.left| && c < |blocks| && p.heads[c] != NIL
    ensures c < |p.chains| && s < |p.count| && s < |p.size| && s < |p.right|
    ensures Displaced(Opened(p, blocks, c, s), s)
  {
    HeadIsFirst(p, blocks, c);
    assert Lost(Opened(p, blocks, c, s), p.heads[c]);
  }

  lemma AfterOpening(p: Pool, blocks: seq<nat>, c: nat, s: nat)
    requires Sturdy(p, blocks) && c < |p.heads| && s !in p.slabs && s < |p.left| && c < |blocks| && blocks[c] > 0
    ensures c < |p.chains| && s < |p.count| && s < |p.size| && s < |p.right|
    ensures var q := Opened(p, blocks, c, s);
      && Sturdy(q, blocks) && Live(q, blocks) == Live(p, blocks)
      && (Listed(p) ==> (Listed(q) <==> p.heads[c] == NIL) && (p.heads[c] != NIL ==> Displaced(q, s)))
  {
    OpenedStocks(p, blocks, c, s);
    OpenedSturdy(p, blocks, c, s);
    if Listed(p) {
      OpenedExactly(p, blocks, c, s);
      if p.heads[c] != NIL { OpenedDisplaces(p, blocks, c, s); }
    }
    hide Opened, Listed, Live, Displaced, Mutual, Headed, Stocked;
  }

  /** Taking a block of `s` brings no other slab back. */
  lemma DisplacedStill(p: Pool, c: nat, s: nat)
    requires c < |p.heads| && c < |p.chains| && s < |p.left| && s < |p.right| && s < |p.count| && p.count[s] > 0
    requires Displaced(p, s)
    ensures Displaced(Popped(p, c, s), s)
  {
    var r :| r != s && Lost(p, r);
    assert Lost(Popped(p, c, s), r);
  }

  /** The slab has no block in use but the one that comes back, and stands next to another in a list. */
  ghost predicate Reclaimable(p: Pool, blocks: seq<nat>, s: nat)
  {
    && s < |p.count| && s < |p.size| && s < |p.left| && s < |p.right| && p.size[s] < |blocks| && p.count[s] > 0
    && p.count[s] + 1 == blocks[p.size[s]] && (p.left[s] != NIL || p.right[s] != NIL)
  }

  /** Slab `s`'s class has a list now, the others have what they had. */
  ghost predicate HeadsAfter(p: Pool, q: Pool, s: nat)
  {
    && s < |p.size| && |q.heads| == |p.heads|
    && forall c :: 0 <= c < |p.heads| ==> if c == p.size[s] then q.heads[c] != NIL else q.heads[c] == p.heads[c]
  }

  /** What giving back a block makes of the pool. */
  ghost function Returned(p: Pool, blocks: seq<nat>, s: nat, b: nat): Pool
  {
    if s < |p.count| && s in p.lists && p.count[s] < |p.lists[s]| && s < |p.size| && p.size[s] < |p.heads|
      && p.size[s] < |p.chains| && s < |p.left| && s < |p.right|
    then
      var m := Pushed(p, s, b);
      if p.count[s] == 0 then Relisted(m, p.size[s], s)
      else if Reclaimable(p, blocks, s) then GivenUp(m, p.size[s], s)
      else m
    else p
  }

  /** The pool once blocks have been given back in turn, and the slabs given up on the way. */
  datatype Returns = Returns(pool: Pool, gone: seq<nat>)

  ghost function AllReturned(p: Pool, blocks: seq<nat>, q: seq<(nat, nat)>): (r: Returns)
    ensures |r.gone| <= |q|
  {
    if q == [] then Returns(p, [])
    else
      var r, (s, b) := AllReturned(p, blocks, q[..|q| - 1]), q[|q| - 1];
      Returns(Returned(r.pool, blocks, s, b), r.gone + if Reclaimable(r.pool, blocks, s) then [s] else [])
  }

  lemma OneMoreReturned(p: Pool, blocks: seq<nat>, q: seq<(nat, nat)>, i: nat)
    requires i < |q|
    ensures AllReturned(p, blocks, q[..i + 1]) ==
      var r := AllReturned(p, blocks, q[..i]);
      Returns(Returned(r.pool, blocks, q[i].0, q[i].1),
              r.gone + if Reclaimable(r.pool, blocks, q[i].0) then [q[i].0] else [])
  {
    assert q[..i + 1][..i] == q[..i];
    hide Returned, Reclaimable;
  }

  lemma LastReturned(p: Pool, blocks: seq<nat>, q: seq<(nat, nat)>)
    requires q != []
    ensures var (r, x) := (AllReturned(p, blocks, q[..|q| - 1]), q[|q| - 1]);
      AllReturned(p, blocks, q).pool == Returned(r.pool, blocks, x.0, x.1)
  {
    hide Returned, Reclaimable;
  }

  /** A block in use comes back. */
  lemma ReturnedSturdy(p: Pool, blocks: seq<nat>, s: nat, b: nat)
    requires Sturdy(p, blocks) && (s, b) in Live(p, blocks)
    ensures var q := Returned(p, blocks, s, b); Sturdy(q, blocks) && Live(q, blocks) == Live(p, blocks) - {(s, b)}
  {
    RoomOnStack(p, blocks, s, b);
    hide Chained, Partial, Live, LeftWithout, RightWithout, Mutual, Stocked, Links, Headed, Relisted, GivenUp;
    if p.count[s] == 0 {
      RelistedSturdy(p, blocks, s, b);
    } else {
      PushedKeeps(p, blocks, s, b);
      PushedSturdy(p, blocks, s, b);
      if Reclaimable(p, blocks, s) { GivenUpSturdy(Pushed(p, s, b), blocks, s); }
    }
  }

  // ---------- the order in which a slab hands out its blocks ----------

  /** Which blocks of a slab have been handed out and given back since it was opened: the first `reached` ids
      have been handed out, no others have, and those in `back` are free again, the latest last. */
  datatype Order = Order(reached: nat, back: seq<nat>)

  /** Nothing has been handed out. */
  const NEW_ORDER := Order(0, [])

  /** The block that is due: the one given back last, and with none given back the least never handed out. */
  function Due(o: Order): nat
  {
    if o.back != [] then o.back[|o.back| - 1] else o.reached
  }

  function DueTaken(o: Order): Order
  {
    if o.back != [] then o.(back := o.back[..|o.back| - 1]) else Order(o.reached + 1, [])
  }

  function GivenBack(o: Order, b: nat): Order
  {
    o.(back := o.back + [b])
  }

  /** The ids of slab `s` in a list of blocks. */
  function Of(q: seq<(nat, nat)>, s: nat): seq<nat>
  {
    if q == [] then [] else Of(q[..|q| - 1], s) + if q[|q| - 1].0 == s then [q[|q| - 1].1] else []
  }

  /** Slab `s` has `n` blocks, and those not handed out yet are the free ones at the bottom of its stack,
      the greatest lowest; on top of them are the ones given back. */
  ghost predicate Ordered(p: Pool, blocks: seq<nat>, s: nat, o: Order)
  {
    && s < |p.count| && s < |p.size| && p.size[s] < |blocks| && s in p.lists
    && OrderedStack(p.lists[s], p.count[s], blocks[p.size[s]], o)
  }

  ghost predicate OrderedStack(l: seq<nat>, count: nat, n: nat, o: Order)
  {
    && |l| == n && o.reached <= n && count == n - o.reached + |o.back| && count <= n
    && (forall i: nat :: i < n - o.reached ==> l[i] == n - 1 - i)
    && forall i: nat :: i < |o.back| ==> l[n - o.reached + i] == o.back[i]
  }

  /** Block `b` is the one that is due from slab `s`, and no other slab's order changes. */
  ghost predicate TakesDue(p: Pool, q: Pool, blocks: seq<nat>, s: nat, b: nat)
  {
    && (forall o :: Ordered(p, blocks, s, o) ==> b == Due(o) && Ordered(q, blocks, s, DueTaken(o)))
    && forall r, o :: r != s && Ordered(p, blocks, r, o) ==> Ordered(q, blocks, r, o)
  }

  /** Block `b` is the next to be due from slab `s`, and no other slab's order changes. */
  ghost predicate GivesBack(p: Pool, q: Pool, blocks: seq<nat>, s: nat, b: nat)
  {
    forall r, o :: Ordered(p, blocks, r, o) ==> Ordered(q, blocks, r, if r == s then GivenBack(o, b) else o)
  }

  lemma PoppedOrders(p: Pool, blocks: seq<nat>, c: nat, s: nat)
    requires c < |p.heads| && c < |p.chains| && s < |p.left| && s < |p.right| && s < |p.count|
    requires s in p.lists && 0 < p.count[s] <= |p.lists[s]|
    ensures TakesDue(p, Popped(p, c, s), blocks, s, p.lists[s][p.count[s] - 1])
  {
    hide Popped, Ordered;
    forall o | Ordered(p, blocks, s, o)
      ensures p.lists[s][p.count[s] - 1] == Due(o) && Ordered(Popped(p, c, s), blocks, s, DueTaken(o))
    {
      PoppedOrder(p, blocks, c, s, o);
    }
    forall r, o | r != s && Ordered(p, blocks, r, o) ensures Ordered(Popped(p, c, s), blocks, r, o) {
      PoppedElsewhere(p, blocks, c, s, r, o);
    }
  }

  lemma ReturnedOrders(p: Pool, blocks: seq<nat>, s: nat, b: nat)
    requires Sturdy(p, blocks) && (s, b) in Live(p, blocks)
    ensures GivesBack(p, Returned(p, blocks, s, b), blocks, s, b)
  {
    hide Ordered, Returned, Sturdy, Live;
    forall r, o | Ordered(p, blocks, r, o)
      ensures Ordered(Returned(p, blocks, s, b), blocks, r, if r == s then GivenBack(o, b) else o)
    {
      ReturnedOrder(p, blocks, s, b, r, o);
    }
  }

  lemma OpenedOrder(p: Pool, blocks: seq<nat>, c: nat, s: nat)
    requires c < |p.heads| && c < |p.chains| && c < |blocks|
    requires s < |p.left| && s < |p.right| && s < |p.count| && s < |p.size|
    ensures Ordered(Opened(p, blocks, c, s), blocks, s, NEW_ORDER)
  {
  }

  /** Opening another slab changes nothing. */
  lemma OpenedElsewhere(p: Pool, blocks: seq<nat>, c: nat, s: nat, r: nat, o: Order)
    requires c < |p.heads| && c < |p.chains| && c < |blocks|
    requires s < |p.left| && s < |p.right| && s < |p.count| && s < |p.size| && r != s
    ensures Ordered(p, blocks, r, o) ==> Ordered(Opened(p, blocks, c, s), blocks, r, o)
  {
  }

  /** The block on top of the stack is the one that is due. */
  lemma PoppedOrder(p: Pool, blocks: seq<nat>, c: nat, s: nat, o: Order)
    requires c < |p.heads| && c < |p.chains| && s < |p.left| && s < |p.right| && s < |p.count| && p.count[s] > 0
    requires Ordered(p, blocks, s, o)
    ensures s in p.lists && p.count[s] <= |p.lists[s]| && p.lists[s][p.count[s] - 1] == Due(o)
    ensures Ordered(Popped(p, c, s), blocks, s, DueTaken(o))
  {
    hide LeftWithout, RightWithout;
  }

  lemma PoppedElsewhere(p: Pool, blocks: seq<nat>, c: nat, s: nat, r: nat, o: Order)
    requires c < |p.heads| && c < |p.chains| && s < |p.left| && s < |p.right| && s < |p.count| && p.count[s] > 0
    requires r != s
    ensures Ordered(p, blocks, r, o) ==> Ordered(Popped(p, c, s), blocks, r, o)
  {
    hide LeftWithout, RightWithout;
  }

  lemma ReturnedOrder(p: Pool, blocks: seq<nat>, s: nat, b: nat, r: nat, o: Order)
    requires Sturdy(p, blocks) && (s, b) in Live(p, blocks) && Ordered(p, blocks, r, o)
    ensures Ordered(Returned(p, blocks, s, b), blocks, r, if r == s then GivenBack(o, b) else o)
  {
    RoomOnStack(p, blocks, s, b);
    hide Sturdy, LeftWithout, RightWithout, Live, Stocked, Taken, Sans, Reclaimable, OrderedStack;
    if r == s { PushedOrder(p.lists[s], p.count[s], blocks[p.size[s]], o, b); }
  }

  lemma PushedOrder(l: seq<nat>, count: nat, n: nat, o: Order, b: nat)
    requires OrderedStack(l, count, n, o) && count < |l|
    ensures OrderedStack(l[count := b], count + 1, n, GivenBack(o, b))
  {
  }

  /** A pool without slabs. */
  ghost function NoSlabs(nodes: nat, classes: nat): Pool
  {
    var zeros := seq(nodes, _ => 0);
    Pool(zeros, zeros, zeros, zeros, seq(classes, _ => NIL), map[], {}, seq(classes, _ => []))
  }

  // ---------- the pool in place ----------

  class SlabPool {
    const left: array<nat>
    const right: array<nat>
    const count: array<nat>
    const size: array<nat>
    const heads: array<nat>
    const blocks: seq<nat>
    var lists: map<nat, seq<nat>>
    ghost var slabs: set<nat>
    ghost var chains: seq<seq<nat>>

    ghost predicate Separate()
    {
      && left != right && left != count && left != size && left != heads && right != count && right != size
      && right != heads && count != size && count != heads && size != heads
    }

    ghost function Now(): Pool
      reads this, left, right, count, size, heads
    {
      Pool(left[..], right[..], count[..], size[..], heads[..], lists, slabs, chains)
    }

    ghost predicate Valid()
      reads this, left, right, count, size, heads
    {
      Separate() && Sturdy(Now(), blocks) && forall c :: 0 <= c < |blocks| ==> blocks[c] > 0
    }

    /** Every slab with a free block is in the list of its class. */
    ghost predicate AllListed()
      reads this, left, right, count, size, heads
    {
      Listed(Now())
    }

    ghost function LiveBlocks(): set<(nat, nat)>
      reads this, left, right, count, size, heads
    {
      Live(Now(), blocks)
    }

    /** No slabs yet. */
    ghost predicate Unused()
      reads this, left, right, count, size, heads
    {
      && Valid() && AllListed() && slabs == {} && LiveBlocks() == {}
      && Now() == NoSlabs(left.Length, |blocks|)
    }

    /** A new pool. */
    constructor (nodes: nat, blocks: seq<nat>)
      requires nodes <= NIL && forall c :: 0 <= c < |blocks| ==> blocks[c] > 0
      ensures this.blocks == blocks && left.Length == nodes && Unused()
      ensures fresh(left) && fresh(right) && fresh(count) && fresh(size) && fresh(heads)
    {
      left, right, count := new nat[nodes](_ => 0), new nat[nodes](_ => 0), new nat[nodes](_ => 0);
      size, heads := new nat[nodes](_ => 0), new nat[|blocks|](_ => NIL);
      this.blocks, lists, slabs := blocks, map[], {};
      chains := seq(|blocks|, _ => []);
      new;
      hide Unused;
      NothingUsed();
    }

    lemma NothingUsed()
      requires Separate() && Now() == NoSlabs(left.Length, |blocks|) && left.Length <= NIL
      requires forall c :: 0 <= c < |blocks| ==> blocks[c] > 0
      ensures Unused()
    {
    }

    /** What is known of a block in use, and of the head of a list. */
    lemma Facts(c: nat)
      requires Valid()
      ensures left.Length == right.Length == count.Length == size.Length <= NIL && heads.Length == |blocks| == |chains|
      ensures forall s :: s in slabs ==> s < size.Length && size[s] < |blocks|
      ensures c < heads.Length && heads[c] != NIL ==> heads[c] in slabs && heads[c] < size.Length && size[heads[c]] == c
    {
      ghost var p := Now();
      assert c < |p.heads| ==> Headed(p, c);
      assert forall s :: s in p.slabs ==> Stocked(p, blocks, s);
    }

    /** Puts an empty slab at node `s` at the head of a class's list, in place of what was there.  Its blocks
        are due from the least on. */
    method Open(c: nat, s: nat)
      requires Valid() && c < |blocks| && s !in slabs && s < left.Length
      modifies this`lists, this`slabs, this`chains, left, right, count, size, heads
      ensures Valid() && slabs == old(slabs) + {s} && LiveBlocks() == old(LiveBlocks())
      ensures old(AllListed()) ==> (AllListed() <==> old(heads[c]) == NIL)
      ensures old(AllListed()) && old(heads[c]) != NIL ==> Displaced(Now(), s)
      ensures c < heads.Length && heads[c] == s && s < size.Length && size[s] == c
        && Now() == Opened(old(Now()), blocks, c, s)
      ensures Ordered(Now(), blocks, s, NEW_ORDER)
    {
      hide Listed, Live, Mutual, Headed, Displaced, Descending, Stocked;
      ghost var p := Now();
      AfterOpening(p, blocks, c, s);
      OpenedOrder(p, blocks, c, s);
      hide Ordered;
      left[s], right[s], size[s], count[s] := NIL, NIL, c, blocks[c];
      var free := FillStack(blocks[c]);
      lists, heads[c] := lists[s := free], s;
      slabs, chains := slabs + {s}, chains[c := [s]];
      assert Now() == Opened(p, blocks, c, s);
    }

    /** Block ids such that the least comes off first. */
    static method FillStack(n: nat) returns (free: seq<nat>)
      ensures free == Descending(n)
    {
      free := [];
      var i := 0;
      while i < n
        invariant i <= n && free == Descending(n)[n - i..]
      {
        free, i := [i] + free, i + 1;
      }
    }

    /** Takes the block that is due from the slab at the head of a class. */
    method Take(c: nat) returns (s: nat, b: nat)
      requires Valid() && c < |blocks| && c < heads.Length && heads[c] != NIL
      modifies this`chains, left, right, count, heads
      ensures Valid() && slabs == old(slabs) && s == old(heads[c]) && s in slabs
      ensures old(AllListed()) ==> AllListed()
      ensures s < size.Length && size[s] == c && b < blocks[c]
      ensures (s, b) !in old(LiveBlocks()) && LiveBlocks() == old(LiveBlocks()) + {(s, b)}
      ensures s in lists && s < count.Length && old(count[s]) > 0 && count[s] == old(count[s]) - 1
      ensures old(count[s]) <= |lists[s]| && b == lists[s][old(count[s]) - 1]
      ensures c < |old(Now()).chains| && s < |old(Now()).left| && s < |old(Now()).right| && s < |old(Now()).count|
      ensures Now() == Popped(old(Now()), c, s) && (Displaced(old(Now()), s) ==> Displaced(Now(), s))
      ensures TakesDue(old(Now()), Now(), blocks, s, b)
    {
      hide Displaced, Sturdy, Listed, Live, LeftWithout, RightWithout, TakesDue;
      ghost var p := Now();
      PoppedSturdy(p, blocks, c);
      PoppedLive(p, blocks, c);
      HeadOfList(p, blocks, c);
      PoppedOrders(p, blocks, c, p.heads[c]);
      if Listed(p) { PoppedListed(p, blocks, c); }
      s := heads[c];
      if Displaced(p, s) { DisplacedStill(p, c, s); }
      if count[s] == 1 { LeaveHead(c, s); }
      b := lists[s][count[s] - 1];
      count[s] := count[s] - 1;
      assert Now() == Popped(p, c, s);
    }

    /** A slab that is about to be full leaves the head of its list. */
    method LeaveHead(c: nat, s: nat)
      requires Separate() && c < heads.Length && c < |chains| && s < left.Length == right.Length <= NIL
      requires left[s] == NIL && (right[s] == NIL || right[s] < left.Length)
      modifies this`chains, left, right, heads
      ensures left[..] == LeftWithout(old(left[..]), old(right[..]), s)
      ensures right[..] == RightWithout(old(left[..]), old(right[..]), s)
      ensures heads[..] == old(heads[..])[c := old(right[s])]
      ensures chains == old(chains)[c := Tail(old(chains)[c])]
    {
      PoppedLinks(Now(), s);
      hide LeftWithout, RightWithout;
      if right[s] != NIL {
        left[right[s]] := left[s];
      }
      heads[c] := right[s];
      right[s], left[s] := NIL, NIL;
      chains := chains[c := Tail(chains[c])];
    }

    /** A slab returns to the front of the list of class `c`. */
    method Relist(c: nat, s: nat)
      requires Separate() && c < heads.Length && c < |chains| && s < left.Length == right.Length <= NIL
      requires heads[c] == NIL || heads[c] < left.Length
      modifies this`chains, left, right, heads
      ensures c < |old(Now()).chains| && c < |old(Now()).heads| && s < |old(Now()).left| && s < |old(Now()).right|
      ensures Now() == Relisted(old(Now()), c, s)
    {
      right[s] := heads[c];
      if right[s] != NIL {
        left[right[s]] := s;
      }
      left[s], heads[c] := NIL, s;
      chains := chains[c := [s] + chains[c]];
    }

    /** A slab leaves the list of class `c` and is given up. */
    method GiveUp(c: nat, s: nat)
      requires Separate() && c < heads.Length && c < |chains| && s < left.Length == right.Length <= NIL
      requires (left[s] == NIL || left[s] < left.Length) && (right[s] == NIL || right[s] < left.Length)
      modifies this`chains, this`slabs, left, right, heads
      ensures c < |old(Now()).chains| && c < |old(Now()).heads| && s < |old(Now()).left| && s < |old(Now()).right|
      ensures Now() == GivenUp(old(Now()), c, s)
    {
      if left[s] != NIL {
        right[left[s]] := right[s];
      } else {
        heads[c] := right[s];
      }
      if right[s] != NIL {
        left[right[s]] := left[s];
      }
      right[s], left[s] := NIL, NIL;
      slabs, chains := slabs - {s}, chains[c := Sans(chains[c], s)];
    }

    /** A slab that has just got back block `b` and was in a list already. */
    method GiveUpIfEmpty(c: nat, s: nat, ghost b: nat, ghost p: Pool) returns (reclaimed: bool)
      requires Separate() && Sturdy(p, blocks) && (s, b) in Live(p, blocks) && s < |p.count| && p.count[s] > 0
      requires s in p.lists && p.count[s] < |p.lists[s]| && s < |p.size| && p.size[s] == c && Now() == Pushed(p, s, b)
      requires c < |p.chains|
      modifies this`chains, this`slabs, left, right, heads
      ensures Sturdy(Now(), blocks) && Live(Now(), blocks) == Live(p, blocks) - {(s, b)}
      ensures Listed(p) ==> Listed(Now()) && heads.Length > c && heads[c] != NIL
      ensures slabs == p.slabs - (if reclaimed then {s} else {}) && (reclaimed <==> Reclaimable(p, blocks, s))
      ensures c < |blocks| && (Listed(p) ==> (reclaimed <==> p.count[s] + 1 == blocks[c] && |p.chains[c]| > 1))
      ensures heads.Length == |p.heads| && forall d: nat :: d < heads.Length && d != c ==> heads[d] == p.heads[d]
      ensures c < |p.heads| && s < |p.left| && s < |p.right|
      ensures Now() == if reclaimed then GivenUp(Pushed(p, s, b), c, s) else Pushed(p, s, b)
    {
      hide Chained, Partial, Live, LeftWithout, RightWithout, Mutual, Stocked, Links;
      ghost var m := Now();
      RoomOnStack(p, blocks, s, b);
      PushedKeeps(p, blocks, s, b);
      PushedSturdy(p, blocks, s, b);
      assert Mutual(m, s);
      InBounds(m, s);
      ghost var k := 0;
      if Listed(p) {
        PushedSound(p, blocks, s, b);
        k := Position(p, blocks, s);
        HeadIsFirst(m, blocks, c);
      }
      reclaimed := count[s] == blocks[c] && (left[s] != NIL || right[s] != NIL);
      if reclaimed {
        GivenUpSturdy(m, blocks, s);
        if Listed(p) { GivenUpSound(p, blocks, s, b, k); }
        GiveUp(c, s);
        if Listed(p) { HeadIsFirst(Now(), blocks, c); }
      }
    }

    /** Takes a block back. The slab is given up exactly when none of its blocks is in use any more
        and another slab is next to it in its list; with every slab listed, that is when its class has
        another slab with a free block. */
    method Deallocate(s: nat, b: nat) returns (reclaimed: bool)
      requires Valid() && (s, b) in LiveBlocks()
      modifies this`lists, this`slabs, this`chains, left, right, count, heads
      ensures Valid() && LiveBlocks() == old(LiveBlocks()) - {(s, b)}
      ensures old(AllListed()) ==> AllListed()
      ensures s in old(slabs) && slabs == old(slabs) - if reclaimed then {s} else {}
      ensures reclaimed <==> Reclaimable(old(Now()), blocks, s)
      ensures s < size.Length && size[s] < |blocks| && size[s] < |old(chains)|
      ensures s < count.Length && count[s] == old(count[s]) + 1
      ensures old(AllListed()) ==>
        (reclaimed <==> old(count[s]) > 0 && count[s] == blocks[size[s]] && old(|chains[size[s]]|) > 1)
      ensures old(AllListed()) ==> HeadsAfter(old(Now()), Now(), s)
      ensures Now().size == old(Now().size) && Now() == Returned(old(Now()), blocks, s, b)
      ensures GivesBack(old(Now()), Now(), blocks, s, b)
    {
      hide Chained, Partial, Live, LeftWithout, RightWithout, Mutual, Stocked, GivesBack;
      ghost var p := Now();
      ReturnedOrders(p, blocks, s, b);
      RoomOnStack(p, blocks, s, b);
      var c := size[s];
      var l: seq<nat> := lists[s][count[s] := b];
      lists := lists[s := l];
      count[s] := count[s] + 1;
      reclaimed := false;
      if count[s] == 1 {
        RelistedSturdy(p, blocks, s, b);
        if Listed(p) { RelistedSound(p, blocks, s, b); }
        assert Headed(p, c);
        Relist(c, s);
      } else {
        reclaimed := GiveUpIfEmpty(c, s, b, p);
      }
    }
  }
}
