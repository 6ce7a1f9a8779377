/** Digits of a power-of-two base: `d` bits each, most significant digit first. */
module Digits {
  import opened Bitwise
  import opened Words
  import opened BitRotations

  /** The number a text of digits stands for. */
  function NumberOf(text: seq<nat>, d: nat): nat
  {
    if text == [] then 0 else NumberOf(text[..|text| - 1], d) * Pow2(d) + text[|text| - 1]
  }

  ghost predicate AllDigits(text: seq<nat>, d: nat)
  {
    forall i :: 0 <= i < |text| ==> text[i] < Pow2(d)
  }

  lemma NumberNext(text: seq<nat>, i: nat, d: nat)
    requires i < |text|
    ensures NumberOf(text[..i + 1], d) == NumberOf(text[..i], d) * Pow2(d) + text[i]
  {
    assert text[..i + 1][..i] == text[..i];
  }

  /** Reading more digits never makes the number smaller. */
  lemma {:induction false} NumberGrows(text: seq<nat>, i: nat, d: nat)
    requires i <= |text|
    ensures NumberOf(text[..i], d) <= NumberOf(text, d)
    decreases |text| - i
  {
    if i < |text| {
      NumberNext(text, i, d);
      Larger(NumberOf(text[..i], d), Pow2(d));
      NumberGrows(text, i + 1, d);
    } else {
      assert text[..i] == text;
    }
  }

  lemma Larger(x: nat, p: nat)
    requires p > 0
    ensures x * p >= x
  {
  }

  // ---------- how long a number is ----------

  function BitLength(x: nat): nat
  {
    if x == 0 then 0 else 1 + BitLength(x / 2)
  }

  lemma {:induction false} BitLengthExact(x: nat)
    ensures x < Pow2(BitLength(x))
    ensures x > 0 ==> BitLength(x) > 0 && Pow2(BitLength(x) - 1) <= x
  {
    if x > 0 {
      BitLengthExact(x / 2);
      if x == 1 { assert BitLength(0) == 0; }
    }
  }

  lemma {:induction false} Pow2Mono(i: nat, j: nat)
    requires i <= j
    ensures Pow2(i) <= Pow2(j)
  {
    if i < j { Pow2Less(i, j); }
  }

  /** A number against a power of two, by its length. */
  lemma LengthCompares(x: nat, k: nat)
    ensures x >= Pow2(k) <==> BitLength(x) > k
  {
    BitLengthExact(x);
    if BitLength(x) > k { Pow2Mono(k, BitLength(x) - 1); } else { Pow2Mono(BitLength(x), k); }
  }

  /** The number of digits of `d` bits that `bits` bits take. */
  function DigitCount(bits: nat, d: nat): nat
    requires d > 0
  {
    (bits + d - 1) / d
  }

  lemma DigitCountExact(bits: nat, d: nat)
    requires d > 0
    ensures bits <= d * DigitCount(bits, d) < bits + d
  {
    var q, r := (bits + d - 1) / d, (bits + d - 1) % d;
    assert bits + d - 1 == d * q + r;
  }

  // ---------- one digit out of the words ----------

  function DigitAt(v: nat, j: nat, d: nat): nat
  {
    v / Pow2(j * d) % Pow2(d)
  }

  /** A digit in front of those already read. */
  lemma DigitSteps(v: nat, j: nat, d: nat)
    ensures v / Pow2((j + 1) * d) * Pow2(d) + DigitAt(v, j, d) == v / Pow2(j * d)
  {
    assert (j + 1) * d == j * d + d;
    ShiftsAdd(v, j * d, d);
    var x, t := v / Pow2(j * d), Pow2(d);
    hide Pow2;
    assert x == t * (x / t) + x % t;
  }

  /** Dividing away whole words and the low bits of the next. */
  lemma ShiftIntoWords(low: nat, x: nat, rest: nat, pw: nat, t: nat, u: nat)
    requires low < pw && t > 0 && u > 0 && x < t * u
    ensures pw * t > 0 && (low + pw * (x + (t * u) * rest)) / (pw * t) == x / t + u * rest
    ensures x / t < u
  {
    var a, b := x / t, x % t;
    assert x == t * a + b;
    Below(t, a, u);
    Factor(x, a, b, rest, t, u);
    Discard(low, a + u * rest, b, pw, t);
  }

  lemma Factor(x: nat, a: nat, b: nat, rest: nat, t: nat, u: nat)
    requires x == t * a + b
    ensures x + (t * u) * rest == t * (a + u * rest) + b
  {
    assert (t * u) * rest == t * (u * rest);
  }

  lemma Discard(low: nat, q: nat, b: nat, pw: nat, t: nat)
    requires low < pw && b < t
    ensures pw * t > 0 && (low + pw * (t * q + b)) / (pw * t) == q
  {
    assert pw * (t * q + b) == (pw * t) * q + pw * b;
    assert pw * (b + 1) <= pw * t;
    Euclid(low + pw * (t * q + b), pw * t, q, low + pw * b);
  }

  lemma Below(t: nat, a: nat, u: nat)
    requires t > 0 && t * a < t * u
    ensures a < u
  {
  }

  /** `rest` on top of a number below `u`. */
  function Joined(y: nat, rest: nat, u: nat): nat
  {
    y + u * rest
  }

  function Mask(x: nat, g: nat): nat
    requires g > 0
  {
    x % g
  }

  /** The digit lies within the word. */
  lemma WithinWord(x: nat, y: nat, rest: nat, d: nat, n: nat)
    requires d <= n && x == Joined(y, rest, Pow2(n))
    ensures Mask(x, Pow2(d)) == Mask(y, Pow2(d))
  {
    hide Pow2, Joined, Mask;
    Pow2Splits(n, d);
    MultipleAdded(x, y, rest, Pow2(n), Pow2(d), Pow2(n - d));
  }

  lemma MultipleAdded(x: nat, y: nat, rest: nat, u: nat, g: nat, k: nat)
    requires g > 0 && u == k * g && x == Joined(y, rest, u)
    ensures Mask(x, g) == Mask(y, g)
  {
    Recompose(y, g);
    NotNegative(k, rest);
    Lifted(x, y, y / g, y % g, rest, u, g, k);
    Euclid(x, g, y / g + k * rest, y % g);
  }

  lemma Lifted(x: nat, y: nat, q: nat, r: nat, rest: nat, u: nat, g: nat, k: nat)
    requires u == k * g && x == y + u * rest && y == g * q + r
    ensures x == g * (q + k * rest) + r
  {
    assert u * rest == g * (k * rest);
    assert g * (q + k * rest) == g * q + g * (k * rest);
  }

  /** The digit straddles two words: `u` counts the values of its low part and `k` of its high. */
  lemma AcrossWords(y: nat, next: nat, rest: nat, u: nat, k: nat, b: nat, h: nat)
    requires u > 0 && k > 0 && y < u && b == k * h
    ensures u * k > 0 && (y + u * (next + b * rest)) % (u * k) == y + (next % k) * u
  {
    var q, r := next / k, next % k;
    assert next == k * q + r;
    assert next + b * rest == k * (q + h * rest) + r by { assert b * rest == k * (h * rest); }
    assert u * (next + b * rest) == (u * k) * (q + h * rest) + r * u;
    assert (r + 1) * u <= k * u;
    assert k * u == u * k;
    Euclid(y + u * (next + b * rest), u * k, q + h * rest, y + r * u);
  }
}
