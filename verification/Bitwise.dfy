/** Bitwise operations on natural numbers. */
module Bitwise {

  function ShiftRight(a: nat, s: nat): nat
    decreases s, a
  {
    if s == 0 then a else ShiftRight(a / 2, s - 1)
  }

  function Xor(a: nat, b: nat): nat
    decreases a + b
  {
    if a == 0 && b == 0 then 0
    else (if a % 2 == b % 2 then 0 else 1) + 2 * Xor(a / 2, b / 2)
  }

  function Or(a: nat, b: nat): nat
    decreases a + b
  {
    if a == 0 && b == 0 then 0
    else (if a % 2 == 1 || b % 2 == 1 then 1 else 0) + 2 * Or(a / 2, b / 2)
  }

  lemma {:induction false} XorSelf(a: nat)
    ensures Xor(a, a) == 0
  {
    if a > 0 { XorSelf(a / 2); }
  }

  lemma {:induction false} XorZero(a: nat, b: nat)
    requires Xor(a, b) == 0
    ensures a == b
    decreases a + b
  {
    if a > 0 || b > 0 { XorZero(a / 2, b / 2); }
  }

  lemma {:induction false} XorStep(a: nat, b: nat)
    ensures Xor(a, b) % 2 == if a % 2 == b % 2 then 0 else 1
    ensures Xor(a, b) / 2 == Xor(a / 2, b / 2)
  {
  }

  lemma HalvesEqual(m: nat, n: nat)
    requires m / 2 == n / 2 && m % 2 == n % 2
    ensures m == n
  {
  }

  lemma {:induction false} XorSwap(a: nat, b: nat, c: nat, d: nat)
    ensures Xor(Xor(a, b), Xor(c, d)) == Xor(Xor(a, c), Xor(b, d))
    decreases a + b + c + d
  {
    if a > 0 || b > 0 || c > 0 || d > 0 {
      XorSwap(a / 2, b / 2, c / 2, d / 2);
      var x, y, z, w := Xor(a, b), Xor(c, d), Xor(a, c), Xor(b, d);
      XorStep(a, b);
      XorStep(c, d);
      XorStep(a, c);
      XorStep(b, d);
      XorStep(x, y);
      XorStep(z, w);
      HalvesEqual(Xor(x, y), Xor(z, w));
    }
  }

  /** Shifting distributes over exclusive or. */
  lemma {:induction false} XorShift(a: nat, b: nat, s: nat)
    ensures ShiftRight(Xor(a, b), s) == Xor(ShiftRight(a, s), ShiftRight(b, s))
    decreases s
  {
    if s > 0 {
      XorStep(a, b);
      XorShift(a / 2, b / 2, s - 1);
    }
  }

  lemma {:induction false} ShiftSmaller(a: nat, s: nat)
    ensures ShiftRight(a, s) <= a
    ensures s > 0 && a > 0 ==> ShiftRight(a, s) < a
    decreases s
  {
    if s > 0 { ShiftSmaller(a / 2, s - 1); }
  }

  /** Folding a number's high part onto itself loses nothing, at any width. */
  lemma FoldInjective(x: nat, y: nat, s: nat)
    requires s > 0 && Xor(x, ShiftRight(x, s)) == Xor(y, ShiftRight(y, s))
    ensures x == y
  {
    var d := Xor(x, y);
    XorSwap(x, ShiftRight(x, s), y, ShiftRight(y, s));
    XorSelf(Xor(x, ShiftRight(x, s)));
    XorZero(d, Xor(ShiftRight(x, s), ShiftRight(y, s)));
    XorShift(x, y, s);
    ShiftSmaller(d, s);
    XorZero(x, y);
  }

  lemma {:induction false} XorBack(a: nat, b: nat)
    ensures Xor(Xor(a, b), b) == a
    decreases a + b
  {
    if a > 0 || b > 0 {
      XorBack(a / 2, b / 2);
      XorStep(a, b);
      XorStep(Xor(a, b), b);
      HalvesEqual(Xor(Xor(a, b), b), a);
    }
  }

  /** The number whose high part, folded onto it, gives `y`. */
  function Unfold(y: nat, s: nat): nat
    requires s > 0
    decreases y
  {
    ShiftSmaller(y, s);
    if y == 0 then 0 else Xor(y, Unfold(ShiftRight(y, s), s))
  }

  lemma {:induction false} UnfoldFold(x: nat, s: nat)
    requires s > 0
    ensures Unfold(Xor(x, ShiftRight(x, s)), s) == x
    decreases x
  {
    var high := ShiftRight(x, s);
    ShiftSmaller(x, s);
    if x > 0 {
      if Xor(x, high) == 0 { XorZero(x, high); }
      UnfoldFold(high, s);
      XorShift(x, high, s);
      XorBack(x, high);
    }
  }

  lemma {:induction false} FoldUnfold(y: nat, s: nat)
    requires s > 0
    ensures Xor(Unfold(y, s), ShiftRight(Unfold(y, s), s)) == y
    decreases y
  {
    var high := ShiftRight(y, s);
    ShiftSmaller(y, s);
    ShiftSmaller(0, s);
    if y > 0 {
      var w := Unfold(high, s);
      FoldUnfold(high, s);
      XorShift(y, w, s);
      XorSwap(y, w, high, ShiftRight(w, s));
      XorBack(y, high);
    }
  }

  lemma {:induction false} UnfoldBound(y: nat, s: nat, k: nat)
    requires s > 0 && y < Pow2(k)
    ensures Unfold(y, s) < Pow2(k)
    decreases y
  {
    var high := ShiftRight(y, s);
    ShiftSmaller(y, s);
    if y > 0 {
      UnfoldBound(high, s, k);
      XorBound(y, Unfold(high, s), k);
    }
  }

  lemma XorBound(a: nat, b: nat, k: nat)
    requires a < Pow2(k) && b < Pow2(k)
    ensures Xor(a, b) < Pow2(k)
  {
    ShiftZero(a, k);
    ShiftZero(b, k);
    XorShift(a, b, k);
    ShiftZero(Xor(a, b), k);
  }

  function Pow2(k: nat): (p: nat)
    ensures p > 0
  {
    if k == 0 then 1 else 2 * Pow2(k - 1)
  }

  lemma {:induction false} Pow2Splits(k: nat, m: nat)
    requires m <= k
    ensures Pow2(k) == Pow2(k - m) * Pow2(m)
  {
    if m > 0 { Pow2Splits(k - 1, m - 1); }
  }

  lemma {:induction false} Pow2Less(k: nat, m: nat)
    requires k < m
    ensures Pow2(k) < Pow2(m)
  {
    if m > k + 1 { Pow2Less(k, m - 1); }
  }

  lemma {:induction false} ShiftZero(a: nat, k: nat)
    ensures ShiftRight(a, k) == 0 <==> a < Pow2(k)
    decreases k
  {
    if k > 0 { ShiftZero(a / 2, k - 1); }
  }

  lemma FoldBound(x: nat, s: nat, k: nat)
    requires x < Pow2(k)
    ensures Xor(x, ShiftRight(x, s)) < Pow2(k)
  {
    ShiftSmaller(x, s);
    XorBound(x, ShiftRight(x, s), k);
  }
}
