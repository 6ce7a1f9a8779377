/** Shifting little-endian words of `w` bits: what the in-place loops leave behind, as
    sequences, and what numbers those are. */
module BitShifts {
  import opened Bitwise
  import opened Words

  // ---------- within one word ----------

  /** A word shifted left, and right, by the bits whose power of two is `t`. */
  function Shl(x: nat, t: nat, b: nat): nat
    requires b > 0
  {
    (x * t) % b
  }

  function Shr(x: nat, t: nat): nat
    requires t > 0
  {
    x / t
  }

  /** The bits a left shift pushes out of the word. */
  function Spill(x: nat, t: nat, b: nat): nat
    requires b > 0
  {
    x * t / b
  }

  /** The bits of the joined halves do not overlap, so the disjunction is a sum. */
  lemma {:induction false} OrDisjoint(a: nat, b: nat, k: nat)
    requires a % Pow2(k) == 0 && b < Pow2(k)
    ensures Or(a, b) == a + b
    decreases k
  {
    if k == 0 {
      OrZero(a);
    } else {
      var d := a / Pow2(k);
      assert a == Pow2(k) * d;
      assert a == 2 * (Pow2(k - 1) * d);
      Euclid(a / 2, Pow2(k - 1), d, 0);
      OrDisjoint(a / 2, b / 2, k - 1);
      OrHalves(a, b);
    }
  }

  lemma {:induction false} OrZero(a: nat)
    ensures Or(a, 0) == a
  {
    if a > 0 { OrZero(a / 2); }
  }

  lemma OrHalves(a: nat, b: nat)
    ensures Or(a, b) == (if a % 2 == 1 || b % 2 == 1 then 1 else 0) + 2 * Or(a / 2, b / 2)
  {
  }

  /** The low bits of `x` moved up by `p`, with the high bits of `y` below them, in words of
      base u t where t is 2 to the power `p`. */
  lemma JoinUp(x: nat, y: nat, t: nat, u: nat, p: nat)
    requires t == Pow2(p) && u > 0 && y < u * t
    ensures Or((x * t) % (u * t), y / u) == (x * t) % (u * t) + y * t / (u * t)
    ensures (x * t) % (u * t) + y * t / (u * t) < u * t
  {
    LowMultiple(x, t, u);
    HighBits(y, t, u);
    OrDisjoint((x * t) % (u * t), y / u, p);
    SumBelow((x * t) % (u * t), y / u, t, u);
  }

  lemma Grows(u: nat, d: nat, t: nat)
    ensures d >= t ==> u * d >= u * t
  {
  }

  lemma LowMultiple(x: nat, t: nat, u: nat)
    requires t > 0 && u > 0
    ensures t * u > 0 && u * t == t * u && (x * t) % (u * t) == (x % u) * t && ((x * t) % (u * t)) % t == 0
  {
    var d, r := x / u, x % u;
    Recompose(x, u);
    Scale(x, t, u, d, r);
    Euclid(x * t, u * t, d, r * t);
    Euclid(r * t, t, r, 0);
  }

  lemma HighBits(y: nat, t: nat, u: nat)
    requires t > 0 && u > 0 && y < u * t
    ensures y * t / (u * t) == y / u && y / u < t
  {
    var d, r := y / u, y % u;
    Recompose(y, u);
    Scale(y, t, u, d, r);
    Euclid(y * t, u * t, d, r * t);
    Grows(u, d, t);
  }

  lemma Scale(y: nat, t: nat, u: nat, d: nat, r: nat)
    requires t > 0 && y == u * d + r && r < u
    ensures y * t == (u * t) * d + r * t && r * t < u * t && u * t > 0
  {
    assert (u * d + r) * t == (u * t) * d + r * t;
    assert (r + 1) * t <= u * t;
  }

  lemma SumBelow(x: nat, y: nat, t: nat, u: nat)
    requires t > 0 && u > 0 && x < u * t && x % t == 0 && y < t
    ensures x + y < u * t
  {
    var d := x / t;
    assert x == t * d;
    Grows(t, d, u);
    assert t * (d + 1) <= t * u;
  }

  // ---------- left ----------

  /** Each word's low bits, with the bits carried out of the word before. */
  ghost function Raised(s: seq<nat>, carry: nat, t: nat, b: nat): (r: seq<nat>)
    requires b > 0
    ensures |r| == |s|
  {
    if s == [] then [] else [Shl(s[0], t, b) + carry] + Raised(s[1..], Spill(s[0], t, b), t, b)
  }

  ghost function CarriedOut(s: seq<nat>, carry: nat, t: nat, b: nat): nat
    requires b > 0
  {
    if s == [] then carry else CarriedOut(s[1..], s[0] * t / b, t, b)
  }

  lemma {:induction false} RaisedValue(s: seq<nat>, carry: nat, t: nat, b: nat)
    requires b > 0
    ensures Value(Raised(s, carry, t, b), b) + Power(b, |s|) * CarriedOut(s, carry, t, b) == Value(s, b) * t + carry
  {
    if s != [] {
      var c := s[0] * t / b;
      var r := Raised(s[1..], c, t, b);
      RaisedValue(s[1..], c, t, b);
      assert Raised(s, carry, t, b)[1..] == r;
      RaiseStep(s[0], t, b, carry, Value(s[1..], b), Value(r, b), Power(b, |s| - 1), CarriedOut(s[1..], c, t, b));
    }
  }

  lemma RaiseStep(x: nat, t: nat, b: nat, carry: nat, v: nat, r: nat, p: nat, out: nat)
    requires b > 0 && r + p * out == v * t + x * t / b
    ensures (x * t) % b + carry + b * r + (b * p) * out == (x + b * v) * t + carry
  {
    assert x * t == b * (x * t / b) + (x * t) % b;
    assert b * (r + p * out) == b * (v * t + x * t / b);
    assert (x + b * v) * t == x * t + b * (v * t);
    assert (b * p) * out == b * (p * out);
  }

  lemma {:induction false} RaisedAt(s: seq<nat>, carry: nat, t: nat, b: nat, i: nat)
    requires b > 0 && i < |s|
    ensures Raised(s, carry, t, b)[i] == Shl(s[i], t, b) + (if i == 0 then carry else Spill(s[i - 1], t, b))
  {
    hide Shl, Spill;
    if i > 0 { RaisedAt(s[1..], Spill(s[0], t, b), t, b, i - 1); }
  }

  /** Word `i` after a left shift by `whole` words and then by a factor of `t`. */
  ghost function LeftWord(before: seq<nat>, i: nat, whole: nat, t: nat, b: nat): nat
    requires b > 0 && whole <= i < |before|
  {
    Shl(before[i - whole], t, b) + if i == whole then 0 else Spill(before[i - whole - 1], t, b)
  }

  ghost predicate ShiftedLeft(before: seq<nat>, after: seq<nat>, whole: nat, t: nat, b: nat)
    requires b > 0
  {
    && |after| == |before| && whole <= |before|
    && (forall i :: 0 <= i < whole ==> after[i] == 0)
    && forall i :: whole <= i < |before| ==> after[i] == LeftWord(before, i, whole, t, b)
  }

  /** The shift loses what leaves the top. */
  lemma ShiftLeftValue(s: seq<nat>, s': seq<nat>, whole: nat, t: nat, b: nat)
    requires b > 0 && ShiftedLeft(s, s', whole, t, b) && InBase(s', b)
    ensures Value(s', b) == (Value(s, b) * (Power(b, whole) * t)) % Power(b, |s|)
  {
    var m := |s| - whole;
    var low, z: seq<nat> := s[..m], seq(whole, _ => 0);
    var r := Raised(low, 0, t, b);
    assert s' == z + r by {
      forall i | whole <= i < |s| ensures s'[i] == r[i - whole] {
        assert s'[i] == LeftWord(s, i, whole, t, b);
        RaisedAt(low, 0, t, b, i - whole);
      }
    }
    hide Raised, CarriedOut, ShiftedLeft, LeftWord, Value, Power;
    RaisedValue(low, 0, t, b);
    ValueZeros(whole, b);
    ValueAppend(z, r, b);
    assert s == low + s[m..];
    ValueAppend(low, s[m..], b);
    PowerAdds(b, whole, m);
    ValueBound(s', b);
    ShiftMod(Value(low, b), Value(s[m..], b), Value(r, b), CarriedOut(low, 0, t, b), Power(b, whole), Power(b, m), t);
  }

  lemma Rearrange(low: nat, high: nat, r: nat, out: nat, pw: nat, pm: nat, t: nat)
    requires r + pm * out == low * t
    ensures (low + pm * high) * (pw * t) == (pw * pm) * (out + high * t) + pw * r
  {
    assert (low + pm * high) * (pw * t) == pw * (low * t) + (pw * pm) * (high * t);
    assert pw * (r + pm * out) == pw * r + (pw * pm) * out;
  }

  lemma ShiftMod(low: nat, high: nat, r: nat, out: nat, pw: nat, pm: nat, t: nat)
    requires pw > 0 && pm > 0 && r + pm * out == low * t && pw * r < pw * pm
    ensures pw * r == ((low + pm * high) * (pw * t)) % (pw * pm)
  {
    Rearrange(low, high, r, out, pw, pm, t);
    Euclid((low + pm * high) * (pw * t), pw * pm, out + high * t, pw * r);
  }

  // ---------- right ----------

  ghost function Below(s: seq<nat>, i: nat, t: nat, u: nat): nat
    requires t > 0
  {
    if i < |s| then (s[i] % t) * u else 0
  }

  /** Word `i` after a right shift by `whole` words and then by a factor of `t`; `u` is the
      rest of the base, b = t u. */
  ghost function RightWord(before: seq<nat>, i: nat, whole: nat, t: nat, u: nat): nat
    requires t > 0 && i + whole < |before|
  {
    before[i + whole] / t + Below(before, i + whole + 1, t, u)
  }

  ghost predicate ShiftedRight(before: seq<nat>, after: seq<nat>, whole: nat, t: nat, u: nat)
    requires t > 0
  {
    && |after| == |before| && whole <= |before|
    && (forall i :: |before| - whole <= i < |before| ==> after[i] == 0)
    && forall i :: 0 <= i < |before| - whole ==> after[i] == RightWord(before, i, whole, t, u)
  }

  ghost predicate Lowered(s: seq<nat>, r: seq<nat>, t: nat, u: nat)
    requires t > 0
  {
    |r| == |s| && forall i :: 0 <= i < |s| ==> r[i] == s[i] / t + Below(s, i + 1, t, u)
  }

  lemma LoweredRest(s: seq<nat>, r: seq<nat>, t: nat, u: nat)
    requires t > 0 && s != [] && Lowered(s, r, t, u)
    ensures r[0] == s[0] / t + Below(s[1..], 0, t, u) && Lowered(s[1..], r[1..], t, u)
  {
    forall i | 0 <= i < |s| - 1 ensures r[1..][i] == s[1..][i] / t + Below(s[1..], i + 1, t, u) {
      assert r[i + 1] == s[i + 1] / t + Below(s, i + 2, t, u);
    }
    assert r[0] == s[0] / t + Below(s, 1, t, u);
  }

  lemma {:induction false} LoweredValue(s: seq<nat>, r: seq<nat>, t: nat, u: nat)
    requires t > 0 && Lowered(s, r, t, u)
    ensures Value(s, t * u) == t * Value(r, t * u) + (if s == [] then 0 else s[0] % t)
  {
    if s != [] {
      LoweredRest(s, r, t, u);
      hide Lowered;
      LoweredValue(s[1..], r[1..], t, u);
      var next := if |s| == 1 then 0 else s[1] % t;
      assert Below(s[1..], 0, t, u) == next * u;
      LowerStep(s[0], t, u, next, Value(r[1..], t * u));
    }
  }

  lemma LowerStep(x: nat, t: nat, u: nat, next: nat, v: nat)
    requires t > 0
    ensures x + (t * u) * (t * v + next) == t * (x / t + next * u + (t * u) * v) + x % t
  {
    assert x == t * (x / t) + x % t;
    assert (t * u) * (t * v + next) == t * ((t * u) * v) + t * (next * u);
  }

  lemma RightSplits(s: seq<nat>, s': seq<nat>, whole: nat, t: nat, u: nat)
    requires t > 0 && ShiftedRight(s, s', whole, t, u)
    ensures s' == s'[..|s| - whole] + seq(whole, _ => 0) && Lowered(s[whole..], s'[..|s| - whole], t, u)
  {
    var m := |s| - whole;
    forall i | 0 <= i < m ensures s'[..m][i] == s[whole..][i] / t + Below(s[whole..], i + 1, t, u) {
      assert s'[i] == RightWord(s, i, whole, t, u);
    }
  }

  lemma ShiftRightValue(s: seq<nat>, s': seq<nat>, whole: nat, t: nat, u: nat)
    requires t > 0 && u > 0 && ShiftedRight(s, s', whole, t, u) && InBase(s, t * u)
    ensures Power(t * u, whole) * t > 0
    ensures Value(s', t * u) == Value(s, t * u) / (Power(t * u, whole) * t)
  {
    RightSplits(s, s', whole, t, u);
    hide ShiftedRight, Lowered, Value, Power;
    var b, m := t * u, |s| - whole;
    var low: seq<nat>, high: seq<nat>, r: seq<nat> := s[..whole], s[whole..], s'[..m];
    LoweredValue(high, r, t, u);
    ValueZeros(whole, b);
    ValueAppend(r, seq(whole, _ => 0), b);
    assert s == low + high;
    ValueAppend(low, high, b);
    ValueBound(low, b);
    ShiftDiv(Value(low, b), Value(r, b), if high == [] then 0 else high[0] % t, Power(b, whole), t);
  }

  lemma ShiftDiv(low: nat, r: nat, rem: nat, pw: nat, t: nat)
    requires low < pw && rem < t
    ensures pw * t > 0 && (low + pw * (t * r + rem)) / (pw * t) == r
  {
    assert pw * (t * r + rem) == (pw * t) * r + pw * rem;
    assert pw * (rem + 1) <= pw * t;
    Euclid(low + pw * (t * r + rem), pw * t, r, low + pw * rem);
  }

  // ---------- the loops, in place ----------

  /** The words above `i` have been replaced, those up to `i` not yet. */
  ghost predicate LeftFrom(before: seq<nat>, now: seq<nat>, i: int, whole: nat, t: nat, b: nat)
    requires b > 0
  {
    && |now| == |before| && whole <= |before|
    && (forall k :: 0 <= k < |before| && k <= i ==> now[k] == before[k])
    && forall k :: whole <= k < |before| && k > i ==> now[k] == LeftWord(before, k, whole, t, b)
  }

  /** Moves every word up by `whole` words and `p` bits, highest first. */
  method ShiftUp(buffer: array<nat>, whole: nat, p: nat, w: nat)
    requires p < w && whole < buffer.Length && InBase(buffer[..], Pow2(w))
    modifies buffer
    ensures ShiftedLeft(old(buffer[..]), buffer[..], whole, Pow2(p), Pow2(w))
    ensures InBase(buffer[..], Pow2(w))
  {
    ghost var s: seq<nat> := buffer[..];
    var t, u, b := Pow2(p), Pow2(w - p), Pow2(w);
    Pow2Splits(w, p);
    hide Pow2, Shl, Shr, Or;
    var i := buffer.Length - 1;
    while i > whole
      invariant whole <= i < buffer.Length && LeftFrom(s, buffer[..], i, whole, t, b)
    {
      hide LeftFrom, LeftWord;
      ghost var now: seq<nat> := buffer[..];
      Untouched(s, now, i, whole, t, b);
      var o := i - whole;
      JoinedWord(s, i, whole, t, u, p, w);
      buffer[i] := if p > 0 then Or(Shl(buffer[o], t, b), Shr(buffer[o - 1], u)) else buffer[o];
      LeftNext(s, now, i, whole, t, b);
      assert buffer[..] == now[i := LeftWord(s, i, whole, t, b)];
      i := i - 1;
    }
    ghost var now: seq<nat> := buffer[..];
    Untouched(s, now, i, whole, t, b);
    LowestWord(s, whole, t, b);
    if p == 0 { PowerZero(p); }
    buffer[whole] := if p > 0 then Shl(buffer[0], t, b) else buffer[0];
    LeftNext(s, now, i, whole, t, b);
    assert buffer[..] == now[whole := LeftWord(s, whole, whole, t, b)];
    ghost var shifted: seq<nat> := buffer[..];
    ClearBelow(buffer, whole);
    LeftDone(s, shifted, buffer[..], whole, t, u, p, w);
  }

  lemma Untouched(s: seq<nat>, now: seq<nat>, i: nat, whole: nat, t: nat, b: nat)
    requires b > 0 && i < |s| && whole <= i && LeftFrom(s, now, i, whole, t, b)
    ensures |now| == |s| && now[i - whole] == s[i - whole] && (i > whole ==> now[i - whole - 1] == s[i - whole - 1])
  {
  }

  /** The word as the loop computes it. */
  lemma JoinedWord(s: seq<nat>, i: nat, whole: nat, t: nat, u: nat, p: nat, w: nat)
    requires p < w && t == Pow2(p) && u == Pow2(w - p) && Pow2(w) == u * t && whole < i < |s| && InBase(s, Pow2(w))
    ensures LeftWord(s, i, whole, t, Pow2(w))
         == if p > 0 then Or(Shl(s[i - whole], t, Pow2(w)), Shr(s[i - whole - 1], u)) else s[i - whole]
    ensures LeftWord(s, i, whole, t, Pow2(w)) < Pow2(w)
  {
    PowerZero(p);
    hide Pow2, Or;
    var x, y := s[i - whole], s[i - whole - 1];
    if p > 0 {
      JoinUp(x, y, t, u, p);
    } else {
      OnlyWhole(x, y, Pow2(w));
    }
  }

  lemma OnlyWhole(x: nat, y: nat, b: nat)
    requires x < b && y < b
    ensures (x * 1) % b + y * 1 / b == x
  {
    Euclid(x, b, 0, x);
    Euclid(y, b, 0, y);
  }

  lemma LowestWord(s: seq<nat>, whole: nat, t: nat, b: nat)
    requires whole < |s| && InBase(s, b) && b > 0
    ensures LeftWord(s, whole, whole, t, b) == Shl(s[0], t, b) < b
    ensures t == 1 ==> LeftWord(s, whole, whole, t, b) == s[0]
  {
    if t == 1 { Euclid(s[0], b, 0, s[0]); }
  }

  lemma LeftNext(s: seq<nat>, now: seq<nat>, i: nat, whole: nat, t: nat, b: nat)
    requires b > 0 && whole <= i < |s| && LeftFrom(s, now, i, whole, t, b)
    ensures |now| == |s| && LeftFrom(s, now[i := LeftWord(s, i, whole, t, b)], i - 1, whole, t, b)
  {
  }

  lemma PowerZero(p: nat)
    ensures p == 0 ==> Pow2(p) == 1
  {
  }

  method ClearBelow(buffer: array<nat>, whole: nat)
    requires whole <= buffer.Length
    modifies buffer
    ensures forall k :: 0 <= k < whole ==> buffer[k] == 0
    ensures buffer[whole..] == old(buffer[whole..])
  {
    var i := whole;
    while i > 0
      invariant 0 <= i <= whole <= buffer.Length && buffer[whole..] == old(buffer[whole..])
      invariant forall k :: i <= k < whole ==> buffer[k] == 0
    {
      i := i - 1;
      buffer[i] := 0;
    }
  }

  lemma LeftDone(s: seq<nat>, now: seq<nat>, after: seq<nat>, whole: nat, t: nat, u: nat, p: nat, w: nat)
    requires p < w && t == Pow2(p) && u == Pow2(w - p) && Pow2(w) == u * t && whole < |s| && InBase(s, Pow2(w))
    requires LeftFrom(s, now, whole as int - 1, whole, t, Pow2(w)) && |after| == |s|
    requires after[whole..] == now[whole..] && forall k :: 0 <= k < whole ==> after[k] == 0
    ensures ShiftedLeft(s, after, whole, t, Pow2(w)) && InBase(after, Pow2(w))
  {
    forall i | 0 <= i < |after| ensures after[i] < Pow2(w)
      && (i >= whole ==> after[i] == LeftWord(s, i, whole, t, Pow2(w))) {
      if i >= whole {
        assert after[whole..][i - whole] == now[whole..][i - whole];
        if i == whole { LowestWord(s, whole, t, Pow2(w)); } else { JoinedWord(s, i, whole, t, u, p, w); }
      }
    }
  }

  // ---------- and to the right ----------

  lemma {:induction false} OrSwap(a: nat, b: nat)
    ensures Or(a, b) == Or(b, a)
    decreases a + b
  {
    if a > 0 || b > 0 { OrSwap(a / 2, b / 2); }
  }

  /** The high bits of `x` moved down, with the low bits of `y` above them. */
  lemma JoinDown(x: nat, y: nat, t: nat, u: nat, k: nat)
    requires u == Pow2(k) && t > 0 && x < t * u
    ensures Or(x / t, (y * u) % (t * u)) == x / t + (y % t) * u
    ensures x / t + (y % t) * u < t * u
  {
    LowMultiple(y, u, t);
    HighBits(x, u, t);
    assert t * u == u * t;
    OrDisjoint((y * u) % (t * u), x / t, k);
    OrSwap((y * u) % (t * u), x / t);
    SumBelow((y % t) * u, x / t, u, t);
  }

  ghost predicate RightTo(before: seq<nat>, now: seq<nat>, i: nat, whole: nat, t: nat, u: nat)
    requires t > 0
  {
    && |now| == |before| && i + whole <= |before|
    && (forall k :: i <= k < |before| ==> now[k] == before[k])
    && forall k :: 0 <= k < i ==> now[k] == RightWord(before, k, whole, t, u)
  }

  /** Moves every word down by `whole` words and `p` bits, lowest first. */
  method ShiftDown(buffer: array<nat>, whole: nat, p: nat, w: nat)
    requires p < w && whole < buffer.Length && InBase(buffer[..], Pow2(w))
    modifies buffer
    ensures ShiftedRight(old(buffer[..]), buffer[..], whole, Pow2(p), Pow2(w - p))
    ensures InBase(buffer[..], Pow2(w)) && Pow2(w) == Pow2(p) * Pow2(w - p)
  {
    ghost var s: seq<nat> := buffer[..];
    var t, u, b := Pow2(p), Pow2(w - p), Pow2(w);
    Pow2Splits(w, p);
    hide Pow2, Shl, Shr, Or;
    var end := buffer.Length - whole - 1;
    for i := 0 to end
      invariant RightTo(s, buffer[..], i, whole, t, u)
    {
      hide RightTo, RightWord;
      ghost var now: seq<nat> := buffer[..];
      StillThere(s, now, i, whole, t, u);
      var o := i + whole;
      LoweredWord(s, i, whole, t, u, p, w);
      buffer[i] := if p > 0 then Or(Shr(buffer[o], t), Shl(buffer[o + 1], u, b)) else buffer[o];
      RightNext(s, now, i, whole, t, u);
      assert buffer[..] == now[i := RightWord(s, i, whole, t, u)];
    }
    ghost var now: seq<nat> := buffer[..];
    StillThere(s, now, end, whole, t, u);
    LoweredWord(s, end, whole, t, u, p, w);
    buffer[end] := if p > 0 then Shr(buffer[buffer.Length - 1], t) else buffer[buffer.Length - 1];
    RightNext(s, now, end, whole, t, u);
    assert buffer[..] == now[end := RightWord(s, end, whole, t, u)];
    ghost var shifted: seq<nat> := buffer[..];
    ClearFrom(buffer, end + 1);
    RightDone(s, shifted, buffer[..], whole, t, u, p, w);
  }

  lemma StillThere(s: seq<nat>, now: seq<nat>, i: nat, whole: nat, t: nat, u: nat)
    requires t > 0 && i + whole < |s| && RightTo(s, now, i, whole, t, u)
    ensures |now| == |s| && now[i + whole] == s[i + whole]
    ensures i + whole + 1 < |s| ==> now[i + whole + 1] == s[i + whole + 1]
  {
  }

  /** The word as the loop computes it. */
  lemma LoweredWord(s: seq<nat>, i: nat, whole: nat, t: nat, u: nat, p: nat, w: nat)
    requires p < w && t == Pow2(p) && u == Pow2(w - p) && Pow2(w) == t * u && i + whole < |s| && InBase(s, Pow2(w))
    ensures RightWord(s, i, whole, t, u)
         == if p == 0 then s[i + whole]
            else if i + whole + 1 < |s| then Or(Shr(s[i + whole], t), Shl(s[i + whole + 1], u, Pow2(w)))
            else Shr(s[i + whole], t)
    ensures RightWord(s, i, whole, t, u) < Pow2(w)
  {
    PowerZero(p);
    hide Pow2, Or;
    var x := s[i + whole];
    var y := if i + whole + 1 < |s| then s[i + whole + 1] else 0;
    JoinDown(x, y, t, u, w - p);
    if p == 0 { NoShift(x, y, u); }
    if i + whole + 1 == |s| { Euclid(0, t, 0, 0); }
  }

  lemma NoShift(x: nat, y: nat, u: nat)
    ensures x / 1 + (y % 1) * u == x
  {
  }

  lemma RightNext(s: seq<nat>, now: seq<nat>, i: nat, whole: nat, t: nat, u: nat)
    requires t > 0 && i + whole < |s| && RightTo(s, now, i, whole, t, u)
    ensures |now| == |s| && RightTo(s, now[i := RightWord(s, i, whole, t, u)], i + 1, whole, t, u)
  {
  }

  method ClearFrom(buffer: array<nat>, from: nat)
    requires from <= buffer.Length
    modifies buffer
    ensures forall k :: from <= k < buffer.Length ==> buffer[k] == 0
    ensures buffer[..from] == old(buffer[..from])
  {
    for i := from to buffer.Length
      invariant buffer[..from] == old(buffer[..from])
      invariant forall k :: from <= k < i ==> buffer[k] == 0
    {
      buffer[i] := 0;
    }
  }

  lemma RightDone(s: seq<nat>, now: seq<nat>, after: seq<nat>, whole: nat, t: nat, u: nat, p: nat, w: nat)
    requires p < w && t == Pow2(p) && u == Pow2(w - p) && Pow2(w) == t * u && whole < |s| && InBase(s, Pow2(w))
    requires RightTo(s, now, |s| - whole, whole, t, u) && |after| == |s|
    requires after[..|s| - whole] == now[..|s| - whole] && forall k :: |s| - whole <= k < |s| ==> after[k] == 0
    ensures ShiftedRight(s, after, whole, t, u) && InBase(after, Pow2(w))
  {
    var m := |s| - whole;
    forall i | 0 <= i < |after| ensures after[i] < Pow2(w) && (i < m ==> after[i] == RightWord(s, i, whole, t, u)) {
      if i < m {
        assert after[..m][i] == now[..m][i];
        LoweredWord(s, i, whole, t, u, p, w);
      }
    }
  }
}
