/** Rotating a number of a fixed width, and what that does to each bit. */
module BitRotations {
  import opened Bitwise
  import opened Words

  function BitAt(v: nat, i: nat): nat
  {
    v / Pow2(i) % 2
  }

  /** The low `m` bits move to the top and the rest moves down. */
  function Rotated(v: nat, m: nat, width: nat): nat
    requires m < width
  {
    (v % Pow2(m)) * Pow2(width - m) + v / Pow2(m)
  }

  /** Remainder that follows the sign of `n`. */
  function Remainder(n: int, m: nat): int
    requires m > 0
  {
    if n >= 0 then Turn(n, m) else 0 - Turn(0 - n, m)
  }

  /** A bit position moved by a remainder of either sign. */
  function Turn(n: int, m: nat): (r: nat)
    requires m > 0
    ensures r < m
  {
    n % m
  }

  lemma TurnOfRemainder(n: int, m: nat)
    requires m > 0
    ensures var r := Remainder(n, m); 0 - m < r < m && Turn(n, m) == if r < 0 then r + m else r
    ensures Remainder(n, m) > 0 ==> n > 0
    ensures Remainder(n, m) < 0 ==> n < 0
  {
    hide Turn;
    if n < 0 {
      NegatedTurn(0 - n, m);
      assert 0 - (0 - n) == n;
    } else if n == 0 {
      SameTurn(0, m, 0, 0);
    }
  }

  lemma NegatedTurn(k: nat, m: nat)
    requires m > 0
    ensures Turn(0 - k, m) == if Turn(k, m) > 0 then m - Turn(k, m) else 0
  {
    var d, r := k / m, k % m;
    assert k == m * d + r;
    if r > 0 {
      NegativeSplit(m, d, r);
      SameTurn(0 - k, m, 0 - d - 1, m - r);
    } else {
      NegativeSplit(m, d, 0);
      SameTurn(0 - k, m, 0 - d, 0);
    }
  }

  lemma NegativeSplit(m: nat, d: nat, r: nat)
    ensures 0 - (m * d + r) == m * (0 - d - 1) + (m - r)
    ensures 0 - m * d == m * (0 - d)
  {
  }

  lemma SameTurn(n: int, m: nat, d: int, r: nat)
    requires m > 0 && n == m * d + r && r < m
    ensures Turn(n, m) == r
  {
    var e, t := n / m, n % m;
    assert m * (d - e) == t - r;
    Whole(m, d - e);
    Whole(m, e - d);
  }

  lemma RotatedBound(v: nat, m: nat, width: nat)
    requires m < width && v < Pow2(width)
    ensures Rotated(v, m, width) < Pow2(width) && v / Pow2(m) < Pow2(width - m)
  {
    Pow2Splits(width, m);
    var t, u := Pow2(m), Pow2(width - m);
    hide Pow2;
    Halves(v, t, u);
  }

  lemma Halves(v: nat, t: nat, u: nat)
    requires t > 0 && v < u * t
    ensures v / t < u && (v % t) * u + v / t < u * t
  {
    assert v == t * (v / t) + v % t;
    Quotient(v, t, u);
    assert (v % t + 1) * u <= t * u;
  }

  lemma Quotient(v: nat, t: nat, u: nat)
    requires t > 0 && v < u * t
    ensures v / t < u
  {
    if v / t >= u { Bigger(t, v / t, u); }
  }

  lemma Bigger(t: nat, d: nat, u: nat)
    requires d >= u
    ensures t * d >= u * t
  {
  }

  lemma Evenly(x: nat, y: nat, k: nat)
    requires k > 0
    ensures (x * Pow2(k) + y) % 2 == y % 2
  {
    var h := Pow2(k - 1);
    assert x * Pow2(k) == 2 * (x * h);
  }

  lemma ShiftsAdd(v: nat, i: nat, j: nat)
    ensures v / Pow2(i) / Pow2(j) == v / Pow2(i + j)
  {
    Pow2Splits(i + j, j);
    DivDiv(v, Pow2(i), Pow2(j));
  }

  lemma DivDiv(v: nat, a: nat, b: nat)
    requires a > 0 && b > 0
    ensures a * b > 0 && v / a / b == v / (a * b)
  {
    var x, r := v / a, v % a;
    var y, t := x / b, x % b;
    Regroup(v, x, r, y, t, a, b);
    Euclid(v, a * b, y, a * t + r);
  }

  lemma Regroup(v: nat, x: nat, r: nat, y: nat, t: nat, a: nat, b: nat)
    requires v == a * x + r && x == b * y + t && r < a && t < b
    ensures v == (a * b) * y + (a * t + r) && a * t + r < a * b
  {
    assert a * x == a * (b * y) + a * t;
    assert a * (t + 1) <= a * b;
  }

  lemma DivAdds(x: nat, a: nat, q: nat, y: nat)
    requires a > 0
    ensures (x * (q * a) + y) / a == x * q + y / a
  {
    var d, r := y / a, y % a;
    assert y == a * d + r;
    assert x * (q * a) + y == a * (x * q + d) + r;
    Euclid(x * (q * a) + y, a, x * q + d, r);
  }

  /** Bits of the low part. */
  lemma LowBit(v: nat, m: nat, j: nat)
    requires j < m
    ensures BitAt(v % Pow2(m), j) == BitAt(v, j)
  {
    hide Pow2;
    Pow2Splits(m, j);
    var a, q := Pow2(j), Pow2(m - j);
    LowQuotient(v, a, q);
    Evenly(v / (q * a), v % (q * a) / a, m - j);
  }

  lemma LowQuotient(v: nat, a: nat, q: nat)
    requires a > 0 && q > 0
    ensures q * a > 0 && v / a == (v / (q * a)) * q + v % (q * a) / a
  {
    assert q * a > 0;
    Recompose(v, q * a);
    DivAdds(v / (q * a), a, q, v % (q * a));
  }

  /** Rotating by `m` moves bit i + m, counted around, to bit i. */
  lemma RotatedBit(v: nat, m: nat, width: nat, i: nat)
    requires m < width && i < width && v < Pow2(width)
    ensures BitAt(Rotated(v, m, width), i) == BitAt(v, (i + m) % width)
  {
    hide Pow2, Rotated, BitAt;
    RotatedBound(v, m, width);
    if i < width - m {
      LowerBit(v, m, width, i);
      Euclid(i + m, width, 0, i + m);
    } else {
      UpperBit(v, m, width, i);
      Euclid(i + m, width, 1, i + m - width);
    }
  }

  lemma LowerBit(v: nat, m: nat, width: nat, i: nat)
    requires m < width && i < width - m
    ensures BitAt(Rotated(v, m, width), i) == BitAt(v, i + m)
  {
    Pow2Splits(width - m, i);
    var lo, hi, a, q := v % Pow2(m), v / Pow2(m), Pow2(i), Pow2(width - m - i);
    ShiftsAdd(v, m, i);
    Evenly(lo, hi / a, width - m - i);
    hide Pow2;
    DivAdds(lo, a, q, hi);
  }

  lemma UpperBit(v: nat, m: nat, width: nat, i: nat)
    requires m < width && width - m <= i < width && v / Pow2(m) < Pow2(width - m)
    ensures BitAt(Rotated(v, m, width), i) == BitAt(v, i + m - width)
  {
    hide Pow2;
    var lo, hi, n, j := v % Pow2(m), v / Pow2(m), width - m, i - (width - m);
    var x := Rotated(v, m, width);
    ShiftsAdd(x, n, j);
    LowBit(v, m, j);
    DivAdds(lo, Pow2(n), 1, hi);
    Euclid(hi, Pow2(n), 0, hi);
    assert x / Pow2(n) == lo;
  }

  /** Numbers of the same width with the same bits are the same. */
  lemma {:induction false} SameBits(x: nat, y: nat, width: nat)
    requires x < Pow2(width) && y < Pow2(width)
    requires forall i :: 0 <= i < width ==> BitAt(x, i) == BitAt(y, i)
    ensures x == y
  {
    if width > 0 {
      assert BitAt(x, 0) == x % 2 && BitAt(y, 0) == y % 2;
      forall i | 0 <= i < width - 1 ensures BitAt(x / 2, i) == BitAt(y / 2, i) {
        assert BitAt(x, i + 1) == BitAt(y, i + 1);
        ShiftsAdd(x, 1, i);
        ShiftsAdd(y, 1, i);
        assert Pow2(1) == 2;
      }
      SameBits(x / 2, y / 2, width - 1);
    }
  }

  /** Rotations compose by adding. */
  lemma RotationsAdd(v: nat, a: nat, b: nat, width: nat)
    requires a < width && b < width && v < Pow2(width)
    ensures Rotated(v, a, width) < Pow2(width)
    ensures Rotated(Rotated(v, a, width), b, width) == Rotated(v, (a + b) % width, width)
  {
    hide Pow2, Rotated, BitAt;
    var x := Rotated(v, a, width);
    RotatedBound(v, a, width);
    RotatedBound(x, b, width);
    var c := (a + b) % width;
    RotatedBound(v, c, width);
    forall i | 0 <= i < width ensures BitAt(Rotated(x, b, width), i) == BitAt(Rotated(v, c, width), i) {
      RotatedBit(x, b, width, i);
      RotatedBit(v, a, width, (i + b) % width);
      RotatedBit(v, c, width, i);
      Around(i, a, b, width);
    }
    SameBits(Rotated(x, b, width), Rotated(v, c, width), width);
  }

  lemma Around(i: nat, a: nat, b: nat, width: nat)
    requires i < width && a < width && b < width
    ensures ((i + b) % width + a) % width == (i + (a + b) % width) % width
  {
    Once(i + b, width);
    Once((i + b) % width + a, width);
    Once(a + b, width);
    Once(i + (a + b) % width, width);
  }

  lemma Once(x: nat, m: nat)
    requires x < 2 * m
    ensures x % m == if x < m then x else x - m
  {
    if x < m { Euclid(x, m, 0, x); } else { Euclid(x, m, 1, x - m); }
  }

  /** Rotating back undoes it. */
  lemma RotationUndone(v: nat, n: int, width: nat)
    requires width > 0 && v < Pow2(width)
    ensures Rotated(Rotated(v, Turn(n, width), width), Turn(-n, width), width) == v
  {
    hide Pow2, Rotated;
    TurnsCancel(n, width);
    RotationsAdd(v, Turn(n, width), Turn(-n, width), width);
    NoRotation(v, width);
  }

  lemma TurnsCancel(n: int, m: nat)
    requires m > 0
    ensures (Turn(n, m) + Turn(-n, m)) % m == 0
  {
    var a, b := Turn(n, m), Turn(-n, m);
    var d, e := n / m, (-n) / m;
    assert n == m * d + a && -n == m * e + b;
    assert a + b == m * (0 - d - e);
    SameTurn(a + b, m, 0 - d - e, 0);
  }

  lemma NoRotation(v: nat, width: nat)
    requires width > 0
    ensures Rotated(v, 0, width) == v
  {
    assert Pow2(0) == 1;
    Euclid(v, 1, v, 0);
    Nothing(Pow2(width));
  }

  lemma Nothing(x: nat)
    ensures 0 * x == 0
  {
  }

  // ---------- joining words ----------

  /** The disjunction of numbers is the disjunction of their words. */
  lemma {:induction false} OrSplits(x: nat, y: nat, p: nat, q: nat, w: nat)
    requires x < Pow2(w) && y < Pow2(w)
    ensures Or(x + Pow2(w) * p, y + Pow2(w) * q) == Or(x, y) + Pow2(w) * Or(p, q)
    ensures Or(x, y) < Pow2(w)
    decreases w
  {
    hide Pow2, Or;
    Pow2Step(w);
    OrParts(x, y);
    if w > 0 {
      OrSplits(x / 2, y / 2, p, q, w - 1);
      OrDoubled(x, y, Pow2(w - 1), p, q);
    } else {
      OrParts(0, 0);
    }
  }

  lemma OrDoubled(x: nat, y: nat, h: nat, p: nat, q: nat)
    requires Or(x / 2 + h * p, y / 2 + h * q) == Or(x / 2, y / 2) + h * Or(p, q)
    ensures Or(x + (2 * h) * p, y + (2 * h) * q) == Or(x, y) + (2 * h) * Or(p, q)
  {
    hide Or;
    OrParts(x + (2 * h) * p, y + (2 * h) * q);
    OrParts(x, y);
    HalfOf(x, h, p);
    HalfOf(y, h, q);
    assert (2 * h) * Or(p, q) == 2 * (h * Or(p, q));
  }

  lemma Pow2Step(w: nat)
    ensures Pow2(w) == if w == 0 then 1 else 2 * Pow2(w - 1)
  {
  }

  lemma OrParts(a: nat, b: nat)
    ensures Or(a, b) == (if a % 2 == 1 || b % 2 == 1 then 1 else 0) + 2 * Or(a / 2, b / 2)
  {
  }

  lemma HalfOf(x: nat, h: nat, p: nat)
    ensures (x + (2 * h) * p) / 2 == x / 2 + h * p && (x + (2 * h) * p) % 2 == x % 2
  {
    assert (2 * h) * p == 2 * (h * p);
  }

  ghost function OrWords(s: seq<nat>, t: seq<nat>): (r: seq<nat>)
    requires |s| == |t|
    ensures |r| == |s| && forall i :: 0 <= i < |s| ==> r[i] == Or(s[i], t[i])
  {
    seq(|s|, i requires 0 <= i < |s| => Or(s[i], t[i]))
  }

  lemma {:induction false} OrNumber(s: seq<nat>, t: seq<nat>, w: nat)
    requires |s| == |t| && InBase(s, Pow2(w)) && InBase(t, Pow2(w))
    ensures Value(OrWords(s, t), Pow2(w)) == Or(Value(s, Pow2(w)), Value(t, Pow2(w)))
    ensures InBase(OrWords(s, t), Pow2(w))
  {
    if s != [] {
      OrNumber(s[1..], t[1..], w);
      assert OrWords(s, t)[1..] == OrWords(s[1..], t[1..]);
      OrSplits(s[0], t[0], Value(s[1..], Pow2(w)), Value(t[1..], Pow2(w)), w);
      forall i | 0 <= i < |s| ensures OrWords(s, t)[i] < Pow2(w) {
        if i > 0 { assert OrWords(s, t)[i] == OrWords(s[1..], t[1..])[i - 1]; }
      }
    }
  }
}
