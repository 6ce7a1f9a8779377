/** Sorting the batch of freed blocks by offset, eight bits at a time, least significant
    digit first. */
module RadixSort {

  const BINS: nat := 256

  // ---------- digits ----------

  function Shifted(k: nat, d: nat): nat
    decreases d, k
  {
    if d == 0 then k else Shifted(k / 256, d - 1)
  }

  function Digit(k: nat, d: nat): (r: nat)
    ensures r < BINS
  {
    Shifted(k, d) % 256
  }

  lemma {:induction false} ShiftedNext(k: nat, d: nat)
    ensures Shifted(k, d + 1) == Shifted(k, d) / 256
    decreases d
  {
    if d > 0 { ShiftedNext(k / 256, d - 1); }
  }

  /** `a` does not come after `b` when only the lowest `d` digits are compared. */
  predicate Before(a: nat, b: nat, d: nat)
  {
    d == 0
    || Digit(a, d - 1) < Digit(b, d - 1)
    || (Digit(a, d - 1) == Digit(b, d - 1) && Before(a, b, d - 1))
  }

  lemma BeforeNext(a: nat, b: nat, d: nat)
    ensures Before(a, b, d + 1)
      <==> Digit(a, d) < Digit(b, d) || (Digit(a, d) == Digit(b, d) && Before(a, b, d))
  {
  }

  lemma BeforeIsLess(a: nat, b: nat)
    requires a < 0x1_0000_0000 && b < 0x1_0000_0000
    ensures Before(a, b, 4) <==> a <= b
  {
    FourDigits(a);
    FourDigits(b);
    hide Digit;
    assert Before(a, b, 1) <==> Digit(a, 0) <= Digit(b, 0);
    assert Before(a, b, 2) <==> Digit(a, 0) + 256 * Digit(a, 1) <= Digit(b, 0) + 256 * Digit(b, 1);
    BeforeNext(a, b, 2);
    BeforeNext(a, b, 3);
    hide Before;
  }

  lemma FourDigits(a: nat)
    requires a < 0x1_0000_0000
    ensures a == Digit(a, 0) + 256 * Digit(a, 1) + 0x1_0000 * Digit(a, 2) + 0x100_0000 * Digit(a, 3)
  {
    var b := a / 256;
    var c := b / 256;
    var e := c / 256;
    assert Shifted(a, 1) == b by { ShiftedNext(a, 0); }
    assert Shifted(a, 2) == c by { ShiftedNext(a, 1); }
    assert Shifted(a, 3) == e by { ShiftedNext(a, 2); }
  }

  // ---------- one pass ----------

  ghost predicate Keyed(ids: seq<nat>, key: seq<nat>)
  {
    forall i :: 0 <= i < |ids| ==> ids[i] < |key|
  }

  /** The ids whose digit `d` is `v`, in their present order. */
  ghost function Bin(ids: seq<nat>, key: seq<nat>, d: nat, v: nat): seq<nat>
    requires Keyed(ids, key)
  {
    if ids == [] then []
    else
      var n := |ids| - 1;
      Bin(ids[..n], key, d, v) + if Digit(key[ids[n]], d) == v then [ids[n]] else []
  }

  /** The first `n` bins, end to end. */
  ghost function Binned(ids: seq<nat>, key: seq<nat>, d: nat, n: nat): seq<nat>
    requires Keyed(ids, key)
  {
    if n == 0 then [] else Binned(ids, key, d, n - 1) + Bin(ids, key, d, n - 1)
  }

  lemma {:induction false} BinMembers(ids: seq<nat>, key: seq<nat>, d: nat, v: nat)
    requires Keyed(ids, key)
    ensures forall x :: x in Bin(ids, key, d, v) <==> x in ids && Digit(key[x], d) == v
  {
    if ids != [] {
      var n := |ids| - 1;
      assert ids == ids[..n] + [ids[n]];
      BinMembers(ids[..n], key, d, v);
    }
  }

  lemma {:induction false} BinnedSplit(ids: seq<nat>, key: seq<nat>, d: nat, n: nat)
    requires Keyed(ids, key) && ids != []
    ensures var k := |ids| - 1;
      multiset(Binned(ids, key, d, n)) == multiset(Binned(ids[..k], key, d, n))
        + if Digit(key[ids[k]], d) < n then multiset{ids[k]} else multiset{}
  {
    hide Digit, Bin;
    if n > 0 {
      var k := |ids| - 1;
      BinnedSplit(ids, key, d, n - 1);
      BinLast(ids, key, d, n - 1);
      BinnedAdds(ids, key, d, n);
      BinnedAdds(ids[..k], key, d, n);
      hide Binned;
    }
  }

  lemma BinLast(ids: seq<nat>, key: seq<nat>, d: nat, v: nat)
    requires Keyed(ids, key) && ids != []
    ensures var k := |ids| - 1;
      multiset(Bin(ids, key, d, v)) == multiset(Bin(ids[..k], key, d, v))
        + if Digit(key[ids[k]], d) == v then multiset{ids[k]} else multiset{}
  {
  }

  lemma BinnedAdds(ids: seq<nat>, key: seq<nat>, d: nat, n: nat)
    requires Keyed(ids, key) && n > 0
    ensures multiset(Binned(ids, key, d, n))
         == multiset(Binned(ids, key, d, n - 1)) + multiset(Bin(ids, key, d, n - 1))
  {
  }

  /** A pass neither loses nor repeats an id. */
  lemma {:induction false} BinnedPermutes(ids: seq<nat>, key: seq<nat>, d: nat)
    requires Keyed(ids, key)
    ensures multiset(Binned(ids, key, d, BINS)) == multiset(ids)
  {
    if ids == [] {
      BinnedEmpty(key, d, BINS);
    } else {
      var n := |ids| - 1;
      assert ids == ids[..n] + [ids[n]];
      BinnedSplit(ids, key, d, BINS);
      BinnedPermutes(ids[..n], key, d);
    }
  }

  lemma {:induction false} BinnedEmpty(key: seq<nat>, d: nat, n: nat)
    ensures Binned([], key, d, n) == []
  {
    if n > 0 { BinnedEmpty(key, d, n - 1); }
  }

  /** In order as far as the lowest `d` digits go. */
  ghost predicate SortedLow(ids: seq<nat>, key: seq<nat>, d: nat)
    requires Keyed(ids, key)
  {
    forall i, j :: 0 <= i < j < |ids| ==> Before(key[ids[i]], key[ids[j]], d)
  }

  lemma {:induction false} BinSorted(ids: seq<nat>, key: seq<nat>, d: nat, v: nat)
    requires Keyed(ids, key) && SortedLow(ids, key, d)
    ensures Keyed(Bin(ids, key, d, v), key) && SortedLow(Bin(ids, key, d, v), key, d)
  {
    hide Before, Digit;
    if ids != [] {
      var n := |ids| - 1;
      BinSorted(ids[..n], key, d, v);
      BinMembers(ids[..n], key, d, v);
      forall x | x in ids[..n] ensures x < |key| && Before(key[x], key[ids[n]], d) {
        var i :| 0 <= i < n && ids[i] == x;
      }
      SortedPush(Bin(ids[..n], key, d, v), ids[n], key, d);
    }
  }

  lemma SortedPush(a: seq<nat>, x: nat, key: seq<nat>, d: nat)
    requires Keyed(a, key) && SortedLow(a, key, d) && x < |key|
    requires forall y :: y in a ==> y < |key| && Before(key[y], key[x], d)
    ensures Keyed(a + [x], key) && SortedLow(a + [x], key, d)
  {
    hide Before;
    var b := a + [x];
    forall i, j | 0 <= i < j < |b| ensures Before(key[b[i]], key[b[j]], d) {
      assert b[i] == a[i] && a[i] in a;
    }
  }

  /** Digit `d` of every key is below `v`. */
  ghost predicate DigitsBelow(ids: seq<nat>, key: seq<nat>, d: nat, v: nat)
    requires Keyed(ids, key)
  {
    forall i :: 0 <= i < |ids| ==> Digit(key[ids[i]], d) < v
  }

  lemma SortedAppend(a: seq<nat>, b: seq<nat>, key: seq<nat>, d: nat, v: nat)
    requires Keyed(a, key) && Keyed(b, key)
    requires SortedLow(a, key, d + 1) && SortedLow(b, key, d) && DigitsBelow(a, key, d, v)
    requires forall x :: x in b ==> x < |key| && Digit(key[x], d) == v
    ensures Keyed(a + b, key) && SortedLow(a + b, key, d + 1) && DigitsBelow(a + b, key, d, v + 1)
  {
    hide Digit, Before;
    forall i | 0 <= i < |b| ensures Digit(key[b[i]], d) == v {
      assert b[i] in b;
    }
    forall i, j | 0 <= i < j < |a + b| ensures Before(key[(a + b)[i]], key[(a + b)[j]], d + 1) {
      BeforeNext(key[(a + b)[i]], key[(a + b)[j]], d);
    }
  }

  lemma BinnedNext(ids: seq<nat>, key: seq<nat>, d: nat, n: nat)
    requires Keyed(ids, key)
    ensures n > 0 ==> Binned(ids, key, d, n) == Binned(ids, key, d, n - 1) + Bin(ids, key, d, n - 1)
    ensures n == 0 ==> Binned(ids, key, d, n) == []
  {
  }

  /** A pass over ids sorted by their lowest `d` digits sorts them by one digit more. */
  lemma {:induction false} BinnedSorted(ids: seq<nat>, key: seq<nat>, d: nat, n: nat)
    requires Keyed(ids, key) && SortedLow(ids, key, d)
    ensures Keyed(Binned(ids, key, d, n), key) && SortedLow(Binned(ids, key, d, n), key, d + 1)
    ensures DigitsBelow(Binned(ids, key, d, n), key, d, n)
  {
    hide Digit, Bin, Binned;
    BinnedNext(ids, key, d, n);
    if n > 0 {
      hide SortedLow, DigitsBelow, Keyed;
      BinnedSorted(ids, key, d, n - 1);
      BinSorted(ids, key, d, n - 1);
      BinDigits(ids, key, d, n - 1);
      SortedAppend(Binned(ids, key, d, n - 1), Bin(ids, key, d, n - 1), key, d, n - 1);
    }
  }

  lemma BinDigits(ids: seq<nat>, key: seq<nat>, d: nat, v: nat)
    requires Keyed(ids, key)
    ensures forall x :: x in Bin(ids, key, d, v) ==> x < |key| && Digit(key[x], d) == v
  {
    hide Digit, Bin;
    BinMembers(ids, key, d, v);
    assert forall x :: x in ids ==> x < |key|;
  }

  // ---------- the scatter loop ----------

  /** Where bin `v` starts in the output. */
  ghost function Start(ids: seq<nat>, key: seq<nat>, d: nat, v: nat): nat
    requires Keyed(ids, key)
  {
    |Binned(ids, key, d, v)|
  }

  /** The first `i` ids stand at the front of their bins, and `sum` points behind them. */
  ghost predicate Scattered(out: seq<nat>, sum: seq<nat>, ids: seq<nat>, key: seq<nat>, d: nat, i: nat)
    requires i <= |ids| && Keyed(ids, key)
  {
    |sum| == BINS && |ids| <= |out| &&
    forall v :: 0 <= v < BINS ==>
      sum[v] == Start(ids, key, d, v) + |Bin(ids[..i], key, d, v)| <= |out|
      && out[Start(ids, key, d, v)..sum[v]] == Bin(ids[..i], key, d, v)
  }

  lemma {:induction false} StartMonotone(ids: seq<nat>, key: seq<nat>, d: nat, v: nat, w: nat)
    requires Keyed(ids, key) && v <= w
    ensures Start(ids, key, d, v) <= Start(ids, key, d, w)
    decreases w
  {
    if v < w { StartMonotone(ids, key, d, v, w - 1); }
  }

  lemma {:induction false} BinPrefix(ids: seq<nat>, key: seq<nat>, d: nat, v: nat, i: nat)
    requires Keyed(ids, key) && i <= |ids|
    ensures |Bin(ids[..i], key, d, v)| <= |Bin(ids, key, d, v)|
    decreases |ids|
  {
    if i < |ids| {
      var n := |ids| - 1;
      BinPrefix(ids[..n], key, d, v, i);
      assert ids[..n][..i] == ids[..i];
    } else {
      assert ids[..i] == ids;
    }
  }

  lemma StartNext(ids: seq<nat>, key: seq<nat>, d: nat, v: nat)
    requires Keyed(ids, key)
    ensures Start(ids, key, d, v + 1) == Start(ids, key, d, v) + |Bin(ids, key, d, v)|
  {
  }

  lemma StartEnd(ids: seq<nat>, key: seq<nat>, d: nat)
    requires Keyed(ids, key)
    ensures Start(ids, key, d, BINS) == |ids|
  {
    BinnedPermutes(ids, key, d);
    assert |multiset(Binned(ids, key, d, BINS))| == |multiset(ids)|;
  }

  lemma BinNext(ids: seq<nat>, key: seq<nat>, d: nat, v: nat, i: nat)
    requires Keyed(ids, key) && i < |ids|
    ensures Bin(ids[..i + 1], key, d, v)
         == Bin(ids[..i], key, d, v) + if Digit(key[ids[i]], d) == v then [ids[i]] else []
  {
    assert ids[..i + 1][..i] == ids[..i];
  }

  /** The slot for the next id is inside its bin and outside every other bin. */
  lemma SlotFree(ids: seq<nat>, key: seq<nat>, d: nat, i: nat, v: nat)
    requires Keyed(ids, key) && i < |ids| && v < BINS
    ensures var u := Digit(key[ids[i]], d);
      var slot := Start(ids, key, d, u) + |Bin(ids[..i], key, d, u)|;
      && slot < |ids|
      && (v < u ==> Start(ids, key, d, v) + |Bin(ids[..i], key, d, v)| <= slot)
      && (v > u ==> slot < Start(ids, key, d, v))
  {
    hide Digit, Bin, Start;
    var u := Digit(key[ids[i]], d);
    BinNext(ids, key, d, u, i);
    BinPrefix(ids, key, d, u, i + 1);
    BinPrefix(ids, key, d, v, i);
    StartNext(ids, key, d, u);
    StartNext(ids, key, d, v);
    StartMonotone(ids, key, d, u + 1, BINS);
    StartEnd(ids, key, d);
    if v < u { StartMonotone(ids, key, d, v + 1, u); }
    if v > u { StartMonotone(ids, key, d, u + 1, v); }
  }

  lemma ScatterStep(out: seq<nat>, sum: seq<nat>, ids: seq<nat>, key: seq<nat>, d: nat, i: nat)
    requires i < |ids| && Keyed(ids, key) && Scattered(out, sum, ids, key, d, i)
    ensures var u := Digit(key[ids[i]], d);
      sum[u] < |ids| && Scattered(out[sum[u] := ids[i]], sum[u := sum[u] + 1], ids, key, d, i + 1)
  {
    hide Digit, Bin, Start;
    var u := Digit(key[ids[i]], d);
    SlotFree(ids, key, d, i, u);
    var out', sum' := out[sum[u] := ids[i]], sum[u := sum[u] + 1];
    forall v | 0 <= v < BINS
      ensures sum'[v] == Start(ids, key, d, v) + |Bin(ids[..i + 1], key, d, v)| <= |out'|
      ensures out'[Start(ids, key, d, v)..sum'[v]] == Bin(ids[..i + 1], key, d, v)
    {
      SlotFree(ids, key, d, i, v);
      BinNext(ids, key, d, v, i);
      var s := Start(ids, key, d, v);
      if v == u {
        assert out'[s..sum'[v]] == out[s..sum[v]] + [ids[i]];
      } else {
        assert out'[s..sum'[v]] == out[s..sum[v]];
      }
    }
  }

  lemma {:induction false} ScatterPrefix(out: seq<nat>, sum: seq<nat>, ids: seq<nat>, key: seq<nat>, d: nat, n: nat)
    requires Keyed(ids, key) && Scattered(out, sum, ids, key, d, |ids|) && n <= BINS
    ensures Start(ids, key, d, n) <= |out| && out[..Start(ids, key, d, n)] == Binned(ids, key, d, n)
  {
    if n > 0 {
      ScatterPrefix(out, sum, ids, key, d, n - 1);
      assert ids[..|ids|] == ids;
      var s, t := Start(ids, key, d, n - 1), Start(ids, key, d, n);
      assert sum[n - 1] == t;
      assert out[..t] == out[..s] + out[s..t];
    }
  }

  /** How many of the ids fall in each bin. */
  ghost predicate Counted(count: seq<nat>, ids: seq<nat>, key: seq<nat>, d: nat)
    requires Keyed(ids, key)
  {
    |count| == BINS && forall v :: 0 <= v < BINS ==> count[v] == |Bin(ids, key, d, v)|
  }

  lemma CountedNext(count: seq<nat>, ids: seq<nat>, key: seq<nat>, d: nat, i: nat)
    requires i < |ids| && Keyed(ids, key) && Counted(count, ids[..i], key, d)
    ensures var u := Digit(key[ids[i]], d);
      Counted(count[u := count[u] + 1], ids[..i + 1], key, d)
  {
    hide Digit, Bin;
    var u := Digit(key[ids[i]], d);
    var count' := count[u := count[u] + 1];
    forall v | 0 <= v < BINS ensures count'[v] == |Bin(ids[..i + 1], key, d, v)| {
      BinNext(ids, key, d, v, i);
    }
  }

  lemma {:induction false} BinMultiset(ids: seq<nat>, key: seq<nat>, d: nat, v: nat, x: nat)
    requires Keyed(ids, key) && x < |key|
    ensures multiset(Bin(ids, key, d, v))[x] == if Digit(key[x], d) == v then multiset(ids)[x] else 0
  {
    hide Digit;
    if ids != [] {
      var n := |ids| - 1;
      assert ids == ids[..n] + [ids[n]];
      BinMultiset(ids[..n], key, d, v, x);
    }
  }

  /** Bin sizes do not depend on the order of the ids. */
  lemma BinSizes(p: seq<nat>, q: seq<nat>, key: seq<nat>, d: nat, v: nat)
    requires Keyed(p, key) && Keyed(q, key) && multiset(p) == multiset(q)
    ensures |Bin(p, key, d, v)| == |Bin(q, key, d, v)|
  {
    hide Digit, Bin;
    var m, m' := multiset(Bin(p, key, d, v)), multiset(Bin(q, key, d, v));
    BinMembers(p, key, d, v);
    BinMembers(q, key, d, v);
    forall x: nat ensures m[x] == m'[x] {
      if x < |key| {
        BinMultiset(p, key, d, v, x);
        BinMultiset(q, key, d, v, x);
      } else {
        assert x !in p && x !in q;
        assert x !in Bin(p, key, d, v) && x !in Bin(q, key, d, v);
      }
    }
    assert m == m';
    assert |m| == |m'|;
  }

  lemma CountedPermutes(count: seq<nat>, p: seq<nat>, q: seq<nat>, key: seq<nat>, d: nat)
    requires Keyed(p, key) && Keyed(q, key) && multiset(p) == multiset(q) && Counted(count, p, key, d)
    ensures Counted(count, q, key, d)
  {
    hide Bin;
    forall v | 0 <= v < BINS ensures count[v] == |Bin(q, key, d, v)| {
      BinSizes(p, q, key, d, v);
    }
  }

  /** Where each bin starts. */
  ghost predicate Starts(sum: seq<nat>, ids: seq<nat>, key: seq<nat>, d: nat)
    requires Keyed(ids, key)
  {
    |sum| == BINS && forall v :: 0 <= v < BINS ==> sum[v] == Start(ids, key, d, v)
  }

  lemma ScatterStart(out: seq<nat>, sum: seq<nat>, ids: seq<nat>, key: seq<nat>, d: nat)
    requires Keyed(ids, key) && Starts(sum, ids, key, d) && |ids| <= |out|
    ensures Scattered(out, sum, ids, key, d, 0)
  {
    assert ids[..0] == [];
    forall v | 0 <= v < BINS ensures Start(ids, key, d, v) <= |ids| {
      StartMonotone(ids, key, d, v, BINS);
      StartEnd(ids, key, d);
    }
  }

  method Clear(count: array<nat>)
    requires count.Length == BINS
    modifies count
    ensures forall v :: 0 <= v < BINS ==> count[v] == 0
  {
    for i := 0 to BINS
      invariant forall v :: 0 <= v < i ==> count[v] == 0
    {
      count[i] := 0;
    }
  }

  method PrefixSums(count: array<nat>, sum: array<nat>, ghost ids: seq<nat>, ghost key: seq<nat>, ghost d: nat)
    requires count != sum && count.Length == sum.Length == BINS
    requires Keyed(ids, key) && Counted(count[..], ids, key, d)
    modifies sum
    ensures Starts(sum[..], ids, key, d)
  {
    var prefix := 0;
    for i := 0 to BINS
      invariant prefix == Start(ids, key, d, i)
      invariant forall v :: 0 <= v < i ==> sum[v] == Start(ids, key, d, v)
    {
      var n := count[i];
      sum[i] := prefix;
      prefix := prefix + n;
    }
  }

  /** Scatters the ids into bins by digit `d`, counting the next digit on the way. */
  method Scatter(key: array<nat>, from: array<nat>, to: array<nat>, n: nat,
                 count: array<nat>, sum: array<nat>, d: nat)
    requires key != to && key != count && key != sum && from != to && from != count && from != sum
    requires to != count && to != sum && count != sum
    requires count.Length == sum.Length == BINS && n <= from.Length && n <= to.Length
    requires Keyed(from[..n], key[..]) && Starts(sum[..], from[..n], key[..], d)
    modifies to, count, sum
    ensures to[..n] == Binned(from[..n], key[..], d, BINS)
    ensures Counted(count[..], from[..n], key[..], d + 1)
  {
    Clear(count);
    ghost var ids, keys := from[..n], key[..];
    assert ids[..0] == [];
    ScatterStart(to[..], sum[..], ids, keys, d);
    for i := 0 to n
      invariant Scattered(to[..], sum[..], ids, keys, d, i)
      invariant Counted(count[..], ids[..i], keys, d + 1)
    {
      ghost var out, sums, counts := to[..], sum[..], count[..];
      var k := Shifted(key[from[i]], d);
      ShiftedNext(key[from[i]], d);
      ScatterStep(out, sums, ids, keys, d, i);
      CountedNext(counts, ids, keys, d + 1, i);
      hide Scattered, Counted;
      to[sum[k % BINS]] := from[i];
      sum[k % BINS] := sum[k % BINS] + 1;
      count[(k / BINS) % BINS] := count[(k / BINS) % BINS] + 1;
    }
    assert ids[..n] == ids;
    ScatterPrefix(to[..], sum[..], ids, keys, d, BINS);
    StartEnd(ids, keys, d);
  }

  /** In order of full offset. */
  ghost predicate Sorted(ids: seq<nat>, key: seq<nat>)
    requires Keyed(ids, key)
  {
    forall i, j :: 0 <= i < j < |ids| ==> key[ids[i]] <= key[ids[j]]
  }

  /** One round: the ids come out sorted by one digit more, none lost or repeated. */
  lemma PassSorts(ids: seq<nat>, key: seq<nat>, d: nat, out: seq<nat>, count: seq<nat>)
    requires Keyed(ids, key) && SortedLow(ids, key, d) && out == Binned(ids, key, d, BINS)
    ensures Keyed(out, key) && SortedLow(out, key, d + 1) && multiset(out) == multiset(ids)
    ensures Counted(count, ids, key, d + 1) ==> Counted(count, out, key, d + 1)
  {
    BinnedSorted(ids, key, d, BINS);
    BinnedPermutes(ids, key, d);
    if Counted(count, ids, key, d + 1) { CountedPermutes(count, ids, out, key, d + 1); }
  }

  /** The keys of the ids are 32-bit words. */
  ghost predicate Narrow(ids: seq<nat>, key: seq<nat>)
  {
    forall i :: 0 <= i < |ids| && ids[i] < |key| ==> key[ids[i]] < 0x1_0000_0000
  }

  lemma NarrowPermutes(p: seq<nat>, q: seq<nat>, key: seq<nat>)
    requires Narrow(p, key) && multiset(p) == multiset(q)
    ensures Narrow(q, key)
  {
    forall i | 0 <= i < |q| && q[i] < |key| ensures key[q[i]] < 0x1_0000_0000 {
      assert q[i] in multiset(p);
      var k :| 0 <= k < |p| && p[k] == q[i];
    }
  }

  lemma SortedByFour(ids: seq<nat>, key: seq<nat>)
    requires Keyed(ids, key) && SortedLow(ids, key, 4)
    requires Narrow(ids, key)
    ensures Sorted(ids, key)
  {
    forall i, j | 0 <= i < j < |ids| ensures key[ids[i]] <= key[ids[j]] {
      BeforeIsLess(key[ids[i]], key[ids[j]]);
    }
  }

  lemma ShiftKeeps(s: seq<nat>, j: nat, tmp: nat)
    requires 0 < j < |s|
    ensures multiset(s[j := s[j - 1]][j - 1 := tmp]) == multiset(s[j := tmp])
  {
  }

  /** The first `n` ids are in order. */
  ghost predicate SortedTo(ids: seq<nat>, key: seq<nat>, n: nat)
    requires Keyed(ids, key) && n <= |ids|
  {
    forall a, b :: 0 <= a < b < n ==> key[ids[a]] <= key[ids[b]]
  }

  /** `tmp` is to be put at `j` or lower, which completes a rearrangement of `all`. */
  ghost predicate Sinking(ids: seq<nat>, key: seq<nat>, all: multiset<nat>, i: nat, j: nat, tmp: nat)
  {
    && j < i < |ids| && Keyed(ids, key) && SortedTo(ids, key, i + 1)
    && tmp < |key| && key[tmp] < key[ids[j]] && multiset(ids[j := tmp]) == all
  }

  lemma SinkStep(ids: seq<nat>, key: seq<nat>, all: multiset<nat>, i: nat, j: nat, tmp: nat)
    requires Sinking(ids, key, all, i, j, tmp) && j > 0 && ids[j - 1] < |key| && key[tmp] < key[ids[j - 1]]
    ensures Sinking(ids[j := ids[j - 1]], key, all, i, j - 1, tmp)
  {
    ShiftKeeps(ids, j, tmp);
  }

  lemma SinkDone(ids: seq<nat>, key: seq<nat>, all: multiset<nat>, i: nat, j: nat, tmp: nat)
    requires Sinking(ids, key, all, i, j, tmp)
    requires j > 0 ==> ids[j - 1] < |key| && key[ids[j - 1]] <= key[tmp]
    ensures Keyed(ids[j := tmp], key) && SortedTo(ids[j := tmp], key, i + 1)
    ensures multiset(ids[j := tmp]) == all
  {
  }

  lemma SinkStart(ids: seq<nat>, key: seq<nat>, i: nat)
    requires 0 < i < |ids| && Keyed(ids, key) && SortedTo(ids, key, i) && key[ids[i]] < key[ids[i - 1]]
    ensures Sinking(ids[i := ids[i - 1]], key, multiset(ids), i, i - 1, ids[i])
  {
    ShiftKeeps(ids, i, ids[i]);
    assert ids[i := ids[i]] == ids;
  }

  lemma SinkKeyed(ids: seq<nat>, key: seq<nat>, all: multiset<nat>, i: nat, j: nat, tmp: nat)
    requires Sinking(ids, key, all, i, j, tmp)
    ensures i < |ids| && tmp < |key| && j < i && (j > 0 ==> ids[j - 1] < |key|)
  {
  }

  method Put(list: array<nat>, n: nat, j: nat, v: nat)
    requires j < n <= list.Length
    modifies list
    ensures list[..n] == old(list[..n])[j := v]
  {
    list[j] := v;
  }

  /** Shifts larger entries up until `tmp` fits. */
  method ShiftLarger(key: array<nat>, list: array<nat>, n: nat, ghost i: nat, start: nat, tmp: nat,
                     ghost all: multiset<nat>)
    returns (j: nat)
    requires key != list && n <= list.Length && Sinking(list[..n], key[..], all, i, start, tmp)
    modifies list
    ensures Sinking(list[..n], key[..], all, i, j, tmp)
    ensures j > 0 ==> list[..n][j - 1] < key.Length && key[list[..n][j - 1]] <= key[tmp]
  {
    hide Sinking;
    j := start;
    while true
      invariant Sinking(list[..n], key[..], all, i, j, tmp)
      decreases j
    {
      ghost var t := list[..n];
      SinkKeyed(t, key[..], all, i, j, tmp);
      if j == 0 || key[tmp] >= key[list[j - 1]] { break; }
      SinkStep(t, key[..], all, i, j, tmp);
      Put(list, n, j, list[j - 1]);
      j := j - 1;
    }
  }

  /** Moves the entry at `i` down to its place among the sorted entries before it. */
  method SinkEntry(key: array<nat>, list: array<nat>, n: nat, i: nat)
    requires key != list && 0 < i < n <= list.Length
    requires Keyed(list[..n], key[..]) && SortedTo(list[..n], key[..], i)
    requires key[list[..n][i]] < key[list[..n][i - 1]]
    modifies list
    ensures Keyed(list[..n], key[..]) && SortedTo(list[..n], key[..], i + 1)
    ensures multiset(list[..n]) == multiset(old(list[..n]))
  {
    ghost var s := list[..n];
    SinkStart(s, key[..], i);
    hide Sinking, Keyed, SortedTo;
    var tmp := list[i];
    Put(list, n, i, list[i - 1]);
    var j := ShiftLarger(key, list, n, i, i - 1, tmp, multiset(s));
    SinkKeyed(list[..n], key[..], multiset(s), i, j, tmp);
    SinkDone(list[..n], key[..], multiset(s), i, j, tmp);
    Put(list, n, j, tmp);
  }

  method InsertionSort(key: array<nat>, list: array<nat>, n: nat)
    requires key != list && n <= list.Length && Keyed(list[..n], key[..])
    modifies list
    ensures Keyed(list[..n], key[..]) && Sorted(list[..n], key[..])
    ensures multiset(list[..n]) == multiset(old(list[..n]))
  {
    var i := 1;
    while i < n
      invariant 1 <= i && Keyed(list[..n], key[..])
      invariant SortedTo(list[..n], key[..], if i < n then i else n)
      invariant multiset(list[..n]) == multiset(old(list[..n]))
    {
      assert list[..n][i] == list[i] && list[..n][i - 1] == list[i - 1];
      if key[list[i]] < key[list[i - 1]] {
        SinkEntry(key, list, n, i);
      }
      i := i + 1;
    }
  }

  method CountFirst(key: array<nat>, list: array<nat>, n: nat, count: array<nat>)
    requires key != count && list != count && count.Length == BINS && n <= list.Length
    requires Keyed(list[..n], key[..])
    modifies count
    ensures Counted(count[..], list[..n], key[..], 0)
  {
    ghost var keys, ids := key[..], list[..n];
    Clear(count);
    assert ids[..0] == [];
    for i := 0 to n
      invariant Counted(count[..], ids[..i], keys, 0)
    {
      CountedNext(count[..], ids, keys, 0, i);
      hide Counted;
      var u := key[list[i]] % BINS;
      count[u] := count[u] + 1;
    }
    assert ids[..n] == ids;
  }

  /** The last pass has no next digit to count. */
  method FinalScatter(key: array<nat>, from: array<nat>, to: array<nat>, n: nat, sum: array<nat>)
    requires key != to && key != sum && from != to && from != sum && to != sum
    requires sum.Length == BINS && n <= from.Length && n <= to.Length
    requires Keyed(from[..n], key[..]) && Starts(sum[..], from[..n], key[..], 3)
    modifies to, sum
    ensures to[..n] == Binned(from[..n], key[..], 3, BINS)
  {
    hide Digit, Scattered, Starts, Start, Bin, Binned;
    ghost var ids, keys := from[..n], key[..];
    ScatterStart(to[..], sum[..], ids, keys, 3);
    for i := 0 to n
      invariant Scattered(to[..], sum[..], ids, keys, 3, i)
    {
      ghost var out, sums := to[..], sum[..];
      ScatterStep(out, sums, ids, keys, 3, i);
      var k := Digit(key[from[i]], 3);
      to[sum[k]] := from[i];
      sum[k] := sum[k] + 1;
    }
    assert ids[..n] == ids;
    ScatterPrefix(to[..], sum[..], ids, keys, 3, BINS);
    StartEnd(ids, keys, 3);
  }

  lemma SortedByNone(ids: seq<nat>, key: seq<nat>)
    requires Keyed(ids, key)
    ensures SortedLow(ids, key, 0)
  {
  }

  /** The radix passes, swapping the two buffers after each. */
  method RadixPasses(key: array<nat>, list: array<nat>, buffer: array<nat>, n: nat,
                     count: array<nat>, sum: array<nat>)
    returns (a: array<nat>, b: array<nat>)
    requires key != list && key != buffer && key != count && key != sum
    requires list != buffer && list != count && list != sum && buffer != count && buffer != sum && count != sum
    requires count.Length == sum.Length == BINS && n <= list.Length && n <= buffer.Length
    requires Keyed(list[..n], key[..])
    modifies list, buffer, count, sum
    ensures a == list && b == buffer
    ensures Keyed(list[..n], key[..]) && SortedLow(list[..n], key[..], 4)
    ensures multiset(list[..n]) == multiset(old(list[..n]))
  {
    hide Counted, Starts, SortedLow, Binned;
    a, b := list, buffer;
    ghost var keys, ids := key[..], list[..n];
    CountFirst(key, list, n, count);
    PrefixSums(count, sum, ids, keys, 0);
    SortedByNone(ids, keys);
    for d := 0 to 3
      invariant if d % 2 == 0 then a == list && b == buffer else a == buffer && b == list
      invariant Keyed(a[..n], keys) && SortedLow(a[..n], keys, d) && multiset(a[..n]) == multiset(ids)
      invariant Starts(sum[..], a[..n], keys, d)
    {
      ghost var before := a[..n];
      Scatter(key, a, b, n, count, sum, d);
      PassSorts(before, keys, d, b[..n], count[..]);
      PrefixSums(count, sum, b[..n], keys, d + 1);
      a, b := b, a;
    }
    ghost var before := a[..n];
    FinalScatter(key, a, b, n, sum);
    PassSorts(before, keys, 3, b[..n], []);
    a, b := b, a;
  }

  method Sort(key: array<nat>, list: array<nat>, buffer: array<nat>, n: nat,
              count: array<nat>, sum: array<nat>, threshold: nat)
    returns (a: array<nat>, b: array<nat>)
    requires key != list && key != buffer && key != count && key != sum
    requires list != buffer && list != count && list != sum && buffer != count && buffer != sum && count != sum
    requires count.Length == sum.Length == BINS && n <= list.Length && n <= buffer.Length
    requires Keyed(list[..n], key[..]) && Narrow(list[..n], key[..])
    modifies list, buffer, count, sum
    ensures a == list && b == buffer
    ensures Keyed(list[..n], key[..]) && Sorted(list[..n], key[..])
    ensures multiset(list[..n]) == multiset(old(list[..n]))
  {
    a, b := list, buffer;
    if n < 2 {
      return;
    }
    if n <= threshold {
      InsertionSort(key, list, n);
      return;
    }
    ghost var ids: seq<nat>, keys: seq<nat> := list[..n], key[..];
    a, b := RadixPasses(key, list, buffer, n, count, sum);
    NarrowPermutes(ids, list[..n], keys);
    SortedByFour(list[..n], keys);
  }

  ghost predicate Distinct(ids: seq<nat>, key: seq<nat>)
    requires Keyed(ids, key)
  {
    forall i, j :: 0 <= i < j < |ids| ==> key[ids[i]] != key[ids[j]]
  }

  lemma Shorter(ids: seq<nat>, key: seq<nat>)
    requires Keyed(ids, key) && Sorted(ids, key) && ids != []
    ensures Keyed(ids[..|ids| - 1], key) && Sorted(ids[..|ids| - 1], key)
    ensures Distinct(ids, key) ==> Distinct(ids[..|ids| - 1], key)
  {
  }

  lemma LastIsGreatest(p: seq<nat>, q: seq<nat>, key: seq<nat>)
    requires Keyed(p, key) && Keyed(q, key) && Sorted(q, key) && multiset(p) == multiset(q) && |p| == |q| > 0
    ensures p[|p| - 1] in q && key[p[|p| - 1]] <= key[q[|q| - 1]]
  {
    assert p[|p| - 1] in multiset(q);
  }

  lemma SameLast(p: seq<nat>, q: seq<nat>, key: seq<nat>)
    requires Keyed(p, key) && Keyed(q, key) && Sorted(p, key) && Sorted(q, key)
    requires multiset(p) == multiset(q) && |p| == |q| > 0
    requires Distinct(p, key)
    ensures p[|p| - 1] == q[|q| - 1]
  {
    LastIsGreatest(p, q, key);
    LastIsGreatest(q, p, key);
    var k :| 0 <= k < |p| && p[k] == q[|q| - 1];
  }

  lemma WithoutLast(p: seq<nat>, q: seq<nat>)
    requires multiset(p) == multiset(q) && |p| == |q| > 0 && p[|p| - 1] == q[|q| - 1]
    ensures multiset(p[..|p| - 1]) == multiset(q[..|q| - 1])
  {
    var n := |p| - 1;
    assert p == p[..n] + [p[n]];
    assert q == q[..n] + [q[n]];
    assert multiset(p[..n]) == multiset(p) - multiset{p[n]};
  }

  /** With distinct offsets there is only one sorted order, whichever method finds it. */
  lemma {:induction false} SortedUnique(p: seq<nat>, q: seq<nat>, key: seq<nat>)
    requires Keyed(p, key) && Keyed(q, key) && Sorted(p, key) && Sorted(q, key)
    requires multiset(p) == multiset(q)
    requires Distinct(p, key)
    ensures p == q
  {
    hide Sorted, Distinct, Keyed;
    assert |p| == |multiset(p)| == |multiset(q)| == |q|;
    if p != [] {
      var n := |p| - 1;
      SameLast(p, q, key);
      WithoutLast(p, q);
      Shorter(p, key);
      Shorter(q, key);
      SortedUnique(p[..n], q[..n], key);
      assert p == p[..n] + [p[n]] && q == q[..n] + [q[n]];
    }
  }
}
