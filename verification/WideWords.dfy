/** Products and quotients of machine words put together from half words.  A half word is below
    `b` and a word below b b; all word arithmetic is modulo b b. */
module WideWords {
  import opened Bitwise
  import opened Words

  function Wrapped(x: int, m: nat): nat
    requires m > 0
  {
    x % m
  }

  lemma NotWrapped(x: nat, m: nat)
    requires x < m
    ensures Wrapped(x, m) == x
  {
    Euclid(x, m, 0, x);
  }

  lemma Mono(x: nat, y: nat, x': nat, y': nat)
    requires x <= x' && y <= y'
    ensures x * y <= x' * y'
  {
  }

  function High(x: nat, b: nat): nat
    requires b > 0
  {
    x / b
  }

  function Low(x: nat, b: nat): nat
    requires b > 0
  {
    x % b
  }

  /** A number is its high part and its low part. */
  lemma Halves(x: nat, b: nat)
    requires b > 0
    ensures x == b * High(x, b) + Low(x, b) && Low(x, b) < b
  {
  }

  lemma HighBound(x: nat, b: nat, k: nat)
    requires b > 0 && x < b * k
    ensures High(x, b) < k
  {
    Halves(x, b);
    NoMore(b, High(x, b), k);
  }

  lemma NoMore(b: nat, d: nat, k: nat)
    requires b > 0 && b * d < b * k
    ensures d < k
  {
  }

  // ---------- the full product ----------

  /** High and low word of the product. */
  function Mul(x: nat, y: nat, b: nat): (nat, nat)
    requires b > 0
  {
    var m := b * b;
    var lolo := Wrapped(Low(x, b) * Low(y, b), m);
    var lohi := Wrapped(Low(x, b) * High(y, b), m);
    var hilo := Wrapped(High(x, b) * Low(y, b), m);
    var hihi := Wrapped(High(x, b) * High(y, b), m);
    var cross := Wrapped(High(lolo, b) + Low(lohi, b) + Low(hilo, b), m);
    var carry := High(cross, b);
    (Wrapped(hihi + High(lohi, b) + High(hilo, b) + carry, m), Low(lolo, b) + Wrapped(cross * b, m))
  }

  /** The product of half words is a word, with room for three more half words. */
  lemma HalfProduct(x: nat, y: nat, b: nat)
    requires b > 0 && x < b && y < b
    ensures 0 <= x * y <= b * b - 2 * b + 1
  {
    NotNegative(x, y);
    Mono(x, y, b - 1, b - 1);
  }

  lemma Expand(x: nat, x1: nat, x0: nat, y: nat, y1: nat, y0: nat, b: nat)
    requires x == b * x1 + x0 && y == b * y1 + y0
    ensures x * y == (b * b) * (x1 * y1) + b * (x0 * y1 + x1 * y0) + x0 * y0
  {
    assert x * y == (b * x1) * (b * y1) + (b * x1) * y0 + x0 * (b * y1) + x0 * y0;
    assert (b * x1) * (b * y1) == (b * b) * (x1 * y1);
    assert (b * x1) * y0 == b * (x1 * y0) && x0 * (b * y1) == b * (x0 * y1);
  }

  /** Collecting the cross terms: `q` and `r` are the middle products, `p` the low one. */
  lemma Collect(b: nat, p1: nat, p0: nat, q1: nat, q0: nat, r1: nat, r0: nat, c1: nat, c0: nat)
    requires p1 + q0 + r0 == b * c1 + c0
    ensures b * ((b * q1 + q0) + (b * r1 + r0)) + (b * p1 + p0) == (b * b) * (q1 + r1 + c1) + b * c0 + p0
  {
    assert b * ((b * q1 + q0) + (b * r1 + r0)) == (b * b) * (q1 + r1) + b * q0 + b * r0;
    assert b * (p1 + q0 + r0) == (b * b) * c1 + b * c0;
  }

  lemma MulSteps(x1: nat, x0: nat, y1: nat, y0: nat, p: nat, q: nat, r: nat, h: nat, b: nat)
    requires b > 1 && p <= b * b - 2 * b + 1 && q <= b * b - 2 * b + 1 && r <= b * b - 2 * b + 1
      && h <= b * b - 2 * b + 1
    ensures Wrapped(p, b * b) == p && Wrapped(q, b * b) == q && Wrapped(r, b * b) == r && Wrapped(h, b * b) == h
  {
    hide Wrapped;
    NotWrapped(p, b * b);
    NotWrapped(q, b * b);
    NotWrapped(r, b * b);
    NotWrapped(h, b * b);
  }

  /** The combination of the four partial products, in whole and half words. */
  lemma Combine(p: nat, p1: nat, p0: nat, q: nat, q1: nat, q0: nat, r: nat, r1: nat, r0: nat, c1: nat, c0: nat,
                h: nat, b: nat, m: nat)
    requires p == b * p1 + p0 && q == b * q1 + q0 && r == b * r1 + r0
    requires m == b * b && p1 + q0 + r0 == b * c1 + c0 && c0 < b && p0 < b
    ensures m * h + b * (q + r) + p == m * (h + q1 + r1 + c1) + (b * c0 + p0)
    ensures b * c0 + p0 < m
  {
    Collect(b, p1, p0, q1, q0, r1, r0, c1, c0);
    assert m * (h + q1 + r1 + c1) == m * h + m * (q1 + r1 + c1);
    Mono(b, c0 + 1, b, b);
    assert b * (c0 + 1) == b * c0 + b;
  }

  lemma MulWords(p: nat, q: nat, r: nat, h: nat, b: nat, m: nat, product: nat)
    requires b > 1 && m == b * b && p < m && q < m && r < m
    requires product == m * h + b * (q + r) + p && product < m * m
    ensures var cross := Wrapped(High(p, b) + Low(q, b) + Low(r, b), m);
      var hi := Wrapped(h + High(q, b) + High(r, b) + High(cross, b), m);
      var lo := Low(p, b) + Wrapped(cross * b, m);
      hi < m && lo < m && hi * m + lo == product
  {
    hide High, Low, Wrapped;
    Halves(p, b);
    Halves(q, b);
    Halves(r, b);
    HighBound(p, b, b);
    var cross := High(p, b) + Low(q, b) + Low(r, b);
    SmallCross(cross, b);
    Halves(cross, b);
    Combine(p, High(p, b), Low(p, b), q, High(q, b), Low(q, b), r, High(r, b), Low(r, b), High(cross, b), Low(cross, b),
            h, b, m);
    var hi := h + High(q, b) + High(r, b) + High(cross, b);
    LowCross(cross, b);
    Within(m, hi, b * Low(cross, b) + Low(p, b), product);
  }

  lemma Within(m: nat, hi: nat, lo: nat, product: nat)
    requires m > 0 && product == m * hi + lo && product < m * m && lo < m
    ensures hi < m && Wrapped(hi, m) == hi && hi * m + lo == product
  {
    NoMore(m, hi, m);
    NotWrapped(hi, m);
  }

  lemma MulIs(x: nat, y: nat, b: nat, m: nat, p: nat, q: nat, r: nat, h: nat)
    requires b > 0 && m > 0 && m == b * b
    requires Wrapped(Low(x, b) * Low(y, b), m) == p && Wrapped(Low(x, b) * High(y, b), m) == q
    requires Wrapped(High(x, b) * Low(y, b), m) == r && Wrapped(High(x, b) * High(y, b), m) == h
    ensures var cross := Wrapped(High(p, b) + Low(q, b) + Low(r, b), m);
      Mul(x, y, b) == (Wrapped(h + High(q, b) + High(r, b) + High(cross, b), m), Low(p, b) + Wrapped(cross * b, m))
  {
    hide High, Low, Wrapped;
  }

  /** No step of the product loses anything: the two words are the full product. */
  lemma MulExact(x: nat, y: nat, b: nat)
    requires b > 1 && x < b * b && y < b * b
    ensures var (hi, lo) := Mul(x, y, b); hi < b * b && lo < b * b && hi * (b * b) + lo == x * y
  {
    Square(b);
    var m := b * b;
    var x1, x0, y1, y0 := High(x, b), Low(x, b), High(y, b), Low(y, b);
    Halves(x, b);
    Halves(y, b);
    HighBound(x, b, b);
    HighBound(y, b, b);
    hide High, Low, Wrapped, Mul;
    HalfProduct(x0, y0, b);
    HalfProduct(x0, y1, b);
    HalfProduct(x1, y0, b);
    HalfProduct(x1, y1, b);
    MulSteps(x1, x0, y1, y0, x0 * y0, x0 * y1, x1 * y0, x1 * y1, b);
    Expand(x, x1, x0, y, y1, y0, b);
    ProductBound(x, y, m);
    MulIs(x, y, b, m, x0 * y0, x0 * y1, x1 * y0, x1 * y1);
    MulWords(x0 * y0, x0 * y1, x1 * y0, x1 * y1, b, m, x * y);
  }

  lemma ProductBound(x: nat, y: nat, m: nat)
    requires x < m && y < m
    ensures 0 <= x * y < m * m
  {
    NotNegative(x, y);
    Mono(x, y, m - 1, m - 1);
    assert (m - 1) * (m - 1) == m * m - 2 * m + 1;
  }

  lemma SmallCross(cross: nat, b: nat)
    requires b > 1 && cross <= 3 * (b - 1)
    ensures cross < b * b && Wrapped(cross, b * b) == cross
  {
    if b == 2 { assert b * b == 4; } else { Mono(3, b, b, b); }
    NotWrapped(cross, b * b);
  }

  /** The shifted cross terms keep their low half. */
  lemma LowCross(cross: nat, b: nat)
    requires b > 0
    ensures b * b > 0 && Wrapped(cross * b, b * b) == b * Low(cross, b)
  {
    Halves(cross, b);
    assert cross * b == (b * b) * High(cross, b) + b * Low(cross, b);
    Mono(b, Low(cross, b) + 1, b, b);
    Euclid(cross * b, b * b, High(cross, b), b * Low(cross, b));
  }

  // ---------- two words divided by one ----------

  /** The first guess at the next half word of the quotient: the leading half word of the divisor
      alone divides. */
  function Guess(u: nat, v: nat, b: nat): nat
    requires b > 0 && High(v, b) > 0
  {
    High(u, High(v, b))
  }

  /** The guess is lowered by one or two if it proves too large. */
  function Correct(qhat: nat, c1: nat, c2: nat, v: nat, m: nat): nat
    requires m > 0
  {
    if c1 > c2 then Wrapped(qhat - (1 + if Wrapped(c1 - c2, m) > v then 1 else 0), m) else qhat
  }

  /** The next half word of the quotient of u b + n by `v`. */
  function Digit(u: nat, n: nat, v: nat, b: nat): nat
    requires b > 0 && High(v, b) > 0
  {
    var m := b * b;
    var d1 := High(v, b);
    var qhat := Guess(u, v, b);
    var rhat := Low(u, d1);
    var c1 := Wrapped(qhat * Low(v, b), m);
    var c2 := Wrapped(rhat * b + n, m);
    Low(Correct(qhat, c1, c2, v, m), b)
  }

  /** How far the guess is from the remainder it leaves. */
  lemma GuessMisses(u: nat, n: nat, v: nat, b: nat)
    requires b > 0 && High(v, b) > 0
    ensures var qhat, rhat := Guess(u, v, b), Low(u, High(v, b));
      u * b + n + qhat * Low(v, b) == qhat * v + rhat * b + n && rhat < High(v, b)
  {
    hide High, Low;
    Halves(v, b);
    var d1, d0 := High(v, b), Low(v, b);
    Halves(u, d1);
    var qhat, rhat := High(u, d1), Low(u, d1);
    assert u * b == (d1 * qhat + rhat) * b;
    assert qhat * v == qhat * (b * d1) + qhat * d0;
    assert (d1 * qhat + rhat) * b == qhat * (b * d1) + rhat * b;
  }

  /** The guess is below b + 2, so its product with the low half is a word. */
  lemma GuessBound(u: nat, v: nat, b: nat)
    requires b > 1 && b % 2 == 0 && b * b <= 2 * v && v < b * b && u < v
    ensures b <= 2 * High(v, b) && High(v, b) < b && Guess(u, v, b) <= b + 1
    ensures Guess(u, v, b) * Low(v, b) < b * b
  {
    hide High, Low;
    Halves(v, b);
    var d1, d0 := High(v, b), Low(v, b);
    HighBound(v, b, b);
    HalfTop(v, d1, d0, b);
    assert v < d1 * (b + 2) by { assert d1 * (b + 2) == b * d1 + 2 * d1; }
    HighBound(u, d1, b + 2);
    Mono(High(u, d1), d0, b + 1, b - 1);
    assert (b + 1) * (b - 1) == b * b - 1;
  }

  lemma HalfTop(v: nat, d1: nat, d0: nat, b: nat)
    requires b > 1 && v == b * d1 + d0 && d0 < b && b * b <= 2 * v
    ensures b <= 2 * d1 + 1 && (b % 2 == 0 ==> b <= 2 * d1)
  {
    assert b * b <= b * (2 * d1) + 2 * d0;
    NoMore(b, b, 2 * d1 + 2);
  }

  lemma CorrectExact(qhat: nat, c1: nat, c2: nat, rest: nat, v: nat, b: nat, m: nat)
    requires b > 1 && m == b * b && rest + c1 == qhat * v + c2 && c1 < m <= 2 * v && c2 < v < m && rest < v * b
    ensures var q := Correct(qhat, c1, c2, v, m); q < b && q <= qhat <= q + 2 && q * v <= rest < (q + 1) * v
  {
    if c1 > c2 {
      NotWrapped(c1 - c2, m);
      var fix := if c1 - c2 > v then 2 else 1;
      hide Wrapped;
      Corrected(qhat, rest, v, c1 - c2, fix);
      DigitBelow(qhat - fix, rest, v, b);
      SmallLow(qhat - fix, b);
      NotWrapped(qhat - fix, m);
    } else {
      Uncorrected(qhat, rest, v, c2 - c1);
      DigitBelow(qhat, rest, v, b);
    }
  }

  lemma DigitIs(u: nat, n: nat, v: nat, b: nat, m: nat, c1: nat, c2: nat)
    requires b > 0 && High(v, b) > 0 && m > 0 && m == b * b
    requires Wrapped(Guess(u, v, b) * Low(v, b), m) == c1 && Wrapped(Low(u, High(v, b)) * b + n, m) == c2
    ensures Digit(u, n, v, b) == Low(Correct(Guess(u, v, b), c1, c2, v, m), b)
  {
    hide High, Low, Wrapped, Guess, Correct;
  }

  /** The correction finds the half word of the quotient: the guess was too large by at most
      two, and no intermediate product or difference wraps around. */
  lemma DigitExact(u: nat, n: nat, v: nat, b: nat)
    requires b > 1 && b % 2 == 0 && b * b <= 2 * v && v < b * b && u < v && n < b
    ensures High(v, b) > 0
    ensures var q := Digit(u, n, v, b);
      && q < b && q <= Guess(u, v, b) <= q + 2
      && q * v <= u * b + n < (q + 1) * v
  {
    hide High, Low, Wrapped, Guess, Correct, Digit;
    GuessBound(u, v, b);
    GuessMisses(u, n, v, b);
    var m, d1 := b * b, High(v, b);
    var qhat, rhat := Guess(u, v, b), Low(u, d1);
    NotNegative(qhat, Low(v, b));
    NotNegative(rhat, b);
    NotNegative(u, b);
    var c1, c2 := qhat * Low(v, b), rhat * b + n;
    Halves(v, b);
    RestBound(rhat, d1, b, n);
    NotWrapped(c1, m);
    NotWrapped(c2, m);
    DigitIs(u, n, v, b, m, c1, c2);
    Overall(u, n, v, b);
    CorrectExact(qhat, c1, c2, u * b + n, v, b, m);
    var q := Correct(qhat, c1, c2, v, m);
    SmallLow(q, b);
    SameProduct(Digit(u, n, v, b), q, v);
  }

  lemma SameProduct(x: nat, y: nat, v: nat)
    requires x == y
    ensures x * v == y * v && (x + 1) * v == (y + 1) * v
  {
  }

  lemma RestBound(rhat: nat, d1: nat, b: nat, n: nat)
    requires rhat < d1 < b && n < b
    ensures rhat * b + n < b * d1 <= b * b
  {
    Mono(rhat + 1, b, d1, b);
    assert (rhat + 1) * b == rhat * b + b;
    Mono(d1, b, b, b);
  }

  /** What is divided is less than `b` times the divisor. */
  lemma Overall(u: nat, n: nat, v: nat, b: nat)
    requires u < v && n < b
    ensures u * b + n < v * b
  {
    Mono(u + 1, b, v, b);
    assert (u + 1) * b == u * b + b;
  }

  lemma Corrected(qhat: nat, rest: nat, v: nat, miss: nat, fix: nat)
    requires rest + miss == qhat * v && 0 < miss < 2 * v && fix == if miss > v then 2 else 1
    ensures fix <= qhat && (qhat - fix) * v <= rest < (qhat - fix + 1) * v
  {
    AtLeastMiss(qhat, v, miss);
    Spread(qhat, fix, v);
  }

  lemma AtLeastMiss(qhat: nat, v: nat, miss: nat)
    requires miss <= qhat * v
    ensures miss > 0 ==> qhat >= 1
    ensures miss > v ==> qhat >= 2
  {
    if qhat <= 1 { Mono(qhat, v, 1, v); }
  }

  lemma Spread(qhat: nat, fix: nat, v: nat)
    requires fix <= qhat
    ensures (qhat - fix) * v == qhat * v - fix * v
    ensures (qhat - fix + 1) * v == qhat * v - fix * v + v
  {
  }

  lemma Uncorrected(qhat: nat, rest: nat, v: nat, over: nat)
    requires rest == qhat * v + over && over < v
    ensures qhat * v <= rest < (qhat + 1) * v
  {
    assert (qhat + 1) * v == qhat * v + v;
  }

  lemma DigitBelow(q: nat, rest: nat, v: nat, b: nat)
    requires q * v <= rest < v * b
    ensures q < b
  {
    if q >= b { Mono(b, v, q, v); }
  }

  lemma SmallLow(x: nat, b: nat)
    requires x < b
    ensures Low(x, b) == x && x < b * b
  {
    Euclid(x, b, 0, x);
    Mono(1, b, b, b);
  }

  /** The leading zero bits of a nonzero word below `m`. */
  function LeadingZeros(v: nat, m: nat): (s: nat)
    requires 0 < v < m
    decreases m - v
  {
    if 2 * v >= m then 0 else 1 + LeadingZeros(2 * v, m)
  }

  lemma {:induction false} LeadingZerosShift(v: nat, m: nat)
    requires 0 < v < m
    ensures var t := Pow2(LeadingZeros(v, m)); v * t < m <= 2 * (v * t)
    decreases m - v
  {
    if 2 * v < m {
      LeadingZerosShift(2 * v, m);
      var t := Pow2(LeadingZeros(2 * v, m));
      assert v * (2 * t) == (2 * v) * t;
    }
  }

  lemma WordOfHalves(c: nat)
    requires c > 0
    ensures var b := Pow2(c); Pow2(2 * c) == b * b && b > 1 && b % 2 == 0
  {
    hide Pow2;
    Pow2Splits(2 * c, c);
    Doubling(c);
    var h := Pow2(c - 1);
    Euclid(2 * h, 2, h, 0);
  }

  lemma Doubling(c: nat)
    requires c > 0
    ensures Pow2(c) == 2 * Pow2(c - 1)
  {
  }

  lemma ShiftInWord(v: nat, s: nat, k: nat)
    requires v > 0 && v * Pow2(s) < Pow2(k)
    ensures s < k
  {
    Mono(1, Pow2(s), v, Pow2(s));
    if s > k { Pow2Less(k, s); }
  }

  /** A divisor shifted until its leading bit is set. */
  lemma Normalized(v: nat, c: nat)
    requires c > 0 && 0 < v < Pow2(2 * c)
    ensures var (s, b, m) := (LeadingZeros(v, Pow2(2 * c)), Pow2(c), Pow2(2 * c));
      && s < 2 * c && m == b * b && b > 1 && b % 2 == 0
      && Wrapped(v * Pow2(s), m) == v * Pow2(s) && m <= 2 * (v * Pow2(s)) && v * Pow2(s) < m
      && High(v * Pow2(s), b) > 0
  {
    hide Pow2, Wrapped, High, LeadingZeros;
    var s := LeadingZeros(v, Pow2(2 * c));
    WordOfHalves(c);
    LeadingZerosShift(v, Pow2(2 * c));
    NotWrapped(v * Pow2(s), Pow2(2 * c));
    ShiftInWord(v, s, 2 * c);
    TopHalf(v * Pow2(s), Pow2(c));
  }

  lemma TopHalf(x: nat, b: nat)
    requires b > 1 && b * b <= 2 * x
    ensures High(x, b) > 0
  {
    Halves(x, b);
    if High(x, b) == 0 {
      Mono(2, b, b, b);
    }
  }

  /** Quotient and remainder of h b b + l by `v`, for words of 2 c bits. */
  function DivMod(h: nat, l: nat, v: nat, c: nat): (nat, nat)
    requires c > 0 && v < Pow2(2 * c)
  {
    var m := Pow2(2 * c);
    if h >= v then (m - 1, m - 1)
    else if h == 0 then (l / v, l % v)
    else Scaled(h, l, v, c)
  }

  /** The dividend is shifted with the divisor. */
  function Scaled(h: nat, l: nat, v: nat, c: nat): (nat, nat)
    requires c > 0 && 0 < v < Pow2(2 * c)
  {
    Normalized(v, c);
    var m := Pow2(2 * c);
    var s := LeadingZeros(v, m);
    var t := Pow2(s);
    var h' := Wrapped(h * t, m) + if s > 0 then l / Pow2(2 * c - s) else 0;
    LongDivide(h', Wrapped(l * t, m), Wrapped(v * t, m), Pow2(c), t)
  }

  lemma Square(b: nat)
    requires b > 0
    ensures b * b > 0
  {
  }

  /** Two half words of quotient, and the remainder shifted back. */
  function LongDivide(h: nat, l: nat, v: nat, b: nat, t: nat): (nat, nat)
    requires b > 0 && t > 0 && High(v, b) > 0
  {
    Square(b);
    var m := b * b;
    var q1 := Digit(h, High(l, b), v, b);
    var r := Wrapped(h * b + High(l, b) - q1 * v, m);
    var q0 := Digit(r, Low(l, b), v, b);
    (q1 * b + q0, Wrapped(r * b + Low(l, b) - q0 * v, m) / t)
  }

  /** One half word of the quotient and the remainder it leaves. */
  lemma DigitLeaves(u: nat, n: nat, v: nat, b: nat)
    requires b > 1 && b % 2 == 0 && b * b <= 2 * v && v < b * b && u < v && n < b
    ensures High(v, b) > 0
    ensures var q := Digit(u, n, v, b); var r := Wrapped(u * b + n - q * v, b * b);
      q < b && r < v && u * b + n == q * v + r
  {
    DigitExact(u, n, v, b);
    hide High, Digit, Guess;
    var q := Digit(u, n, v, b);
    assert (q + 1) * v == q * v + v;
    NotWrapped(u * b + n - q * v, b * b);
  }

  /** The two half words together are the quotient. */
  lemma LongDivideExact(h: nat, l: nat, v: nat, b: nat, t: nat) returns (r0: nat)
    requires b > 1 && High(v, b) > 0
    requires b % 2 == 0 && b * b <= 2 * v && v < b * b && h < v && l < b * b && t > 0
    ensures var (q, r) := LongDivide(h, l, v, b, t);
      r0 < v && r == r0 / t && q < b * b && h * (b * b) + l == q * v + r0
  {
    Halves(l, b);
    HighBound(l, b, b);
    hide High, Low, Digit, Wrapped;
    DigitLeaves(h, High(l, b), v, b);
    var q1 := Digit(h, High(l, b), v, b);
    var r1 := Wrapped(h * b + High(l, b) - q1 * v, b * b);
    DigitLeaves(r1, Low(l, b), v, b);
    var q0 := Digit(r1, Low(l, b), v, b);
    r0 := Wrapped(r1 * b + Low(l, b) - q0 * v, b * b);
    TwoDigits(h, High(l, b), Low(l, b), q1, q0, r1, r0, v, b);
    assert LongDivide(h, l, v, b, t) == (q1 * b + q0, r0 / t);
  }

  lemma TwoDigits(h: nat, n1: nat, n0: nat, q1: nat, q0: nat, r1: nat, r0: nat, v: nat, b: nat)
    requires h * b + n1 == q1 * v + r1 && r1 * b + n0 == q0 * v + r0 && q1 < b && q0 < b
    ensures h * (b * b) + (b * n1 + n0) == (q1 * b + q0) * v + r0 && q1 * b + q0 < b * b
  {
    assert h * (b * b) + b * n1 == b * (h * b + n1);
    assert b * (q1 * v + r1) == (q1 * b) * v + r1 * b;
    assert (q1 * b + q0) * v == (q1 * b) * v + q0 * v;
    Mono(q1 + 1, b, b, b);
    assert (q1 + 1) * b == q1 * b + b;
  }

  /** Scaling changes neither the order of the operands nor, but for the factor, the dividend. */
  lemma ScaledOperands(h: nat, l: nat, v: nat, t: nat, u: nat, m: nat)
    requires t > 0 && u > 0 && m == u * t && h < v && l < m && v * t < m
    ensures var h' := Wrapped(h * t, m) + l / u; var l' := Wrapped(l * t, m);
      h' < v * t && l' < m && h' * m + l' == (h * m + l) * t
  {
    hide Wrapped;
    Mono(h + 1, t, v, t);
    assert (h + 1) * t == h * t + t;
    NotWrapped(h * t, m);
    SplitLow(l, t, u, m);
    var d, r := l / u, l % u;
    assert (h * t + d) * m + r * t == (h * m + l) * t by { Together(h, d, r, l, t, u, m); }
  }

  lemma SplitLow(l: nat, t: nat, u: nat, m: nat)
    requires t > 0 && u > 0 && m == u * t && l < m
    ensures l == u * (l / u) + l % u && l / u < t && Wrapped(l * t, m) == (l % u) * t && (l % u) * t < m
  {
    var d, r := l / u, l % u;
    assert l == u * d + r;
    NoMore(u, d, t);
    Mono(r + 1, t, u, t);
    assert (r + 1) * t == r * t + t;
    assert l * t == m * d + r * t;
    Euclid(l * t, m, d, r * t);
  }

  lemma Together(h: nat, d: nat, r: nat, l: nat, t: nat, u: nat, m: nat)
    requires l == u * d + r && m == u * t
    ensures (h * t + d) * m + r * t == (h * m + l) * t
  {
    assert (h * t + d) * m == (h * m) * t + d * m;
    assert (h * m + l) * t == (h * m) * t + l * t;
    assert l * t == (u * d) * t + r * t;
    assert d * m == (u * d) * t;
  }

  /** Without a shift nothing moves. */
  lemma UnscaledOperands(h: nat, l: nat, m: nat)
    requires h < m && l < m
    ensures Wrapped(h * 1, m) == h && Wrapped(l * 1, m) == l
  {
    NotWrapped(h, m);
    NotWrapped(l, m);
  }

  lemma Unscale(q: nat, n: nat, v: nat, t: nat, r: nat)
    requires t > 0 && n * t == q * (v * t) + r && r < v * t
    ensures r / t < v && n == q * v + r / t
  {
    Split3(q, v, t);
    Divides(n, q * v, t, r);
    Mono(r / t, t, r / t, t);
    assert r == t * (r / t) + r % t;
    if r / t >= v { Mono(v, t, r / t, t); }
  }

  lemma Split3(q: nat, v: nat, t: nat)
    ensures q * (v * t) == (q * v) * t
  {
  }

  lemma NoMoreTimes(k: nat, n: nat, t: nat)
    requires t > 0 && k * t <= n * t
    ensures k <= n
  {
  }

  lemma Divides(n: nat, k: nat, t: nat, r: nat)
    requires t > 0 && n * t == k * t + r
    ensures k <= n && r / t == n - k
  {
    NoMoreTimes(k, n, t);
    assert r == t * (n - k);
    Euclid(r, t, n - k, 0);
  }

  lemma ScaledExact(h: nat, l: nat, v: nat, c: nat)
    requires c > 0 && h < v < Pow2(2 * c) && l < Pow2(2 * c)
    ensures var (q, r) := Scaled(h, l, v, c);
      r < v && q < Pow2(2 * c) && h * Pow2(2 * c) + l == q * v + r
  {
    hide Pow2, Wrapped, LongDivide, LeadingZeros, High;
    Normalized(v, c);
    var b, m := Pow2(c), Pow2(2 * c);
    var s := LeadingZeros(v, m);
    var t := Pow2(s);
    var h', l' := ShiftedOperands(h, l, v, c, s);
    var r0 := LongDivideExact(h', l', v * t, b, t);
    var (q, r) := LongDivide(h', l', v * t, b, t);
    Unscale(q, h * m + l, v, t, r0);
  }

  lemma ShiftedOperands(h: nat, l: nat, v: nat, c: nat, s: nat) returns (h': nat, l': nat)
    requires c > 0 && h < v < Pow2(2 * c) && l < Pow2(2 * c) && s < 2 * c && v * Pow2(s) < Pow2(2 * c)
    ensures var (m, t) := (Pow2(2 * c), Pow2(s));
      && h' == Wrapped(h * t, m) + (if s > 0 then l / Pow2(2 * c - s) else 0) && l' == Wrapped(l * t, m)
      && h' < v * t && l' < m && h' * m + l' == (h * m + l) * t
  {
    var m, t, u := Pow2(2 * c), Pow2(s), Pow2(2 * c - s);
    Pow2Splits(2 * c, s);
    if s == 0 { assert t == 1; }
    hide Pow2, Wrapped;
    h', l' := Wrapped(h * t, m) + (if s > 0 then l / u else 0), Wrapped(l * t, m);
    if s == 0 { UnscaledOperands(h, l, m); } else { ScaledOperands(h, l, v, t, u, m); }
  }

  /** For every dividend whose high word is below the divisor, the result is its quotient and
      remainder: no intermediate step loses anything modulo the word. */
  lemma DivModExact(h: nat, l: nat, v: nat, c: nat)
    requires c > 0 && h < v < Pow2(2 * c) && l < Pow2(2 * c)
    ensures var (q, r) := DivMod(h, l, v, c);
      r < v && q < Pow2(2 * c) && h * Pow2(2 * c) + l == q * v + r
  {
    hide Pow2, Scaled;
    if h == 0 {
      Recompose(l, v);
      Mono(1, l / v, v, l / v);
    } else {
      ScaledExact(h, l, v, c);
    }
  }

  /** A quotient that does not fit a word is reported as the largest one. */
  lemma DivModOverflow(h: nat, l: nat, v: nat, c: nat)
    requires c > 0 && v < Pow2(2 * c) && l < Pow2(2 * c) && h < Pow2(2 * c)
    ensures h >= v ==> DivMod(h, l, v, c) == (Pow2(2 * c) - 1, Pow2(2 * c) - 1)
    ensures v > 0 ==> (h >= v <==> h * Pow2(2 * c) + l >= v * Pow2(2 * c))
  {
    var m := Pow2(2 * c);
    hide Pow2;
    if h >= v {
      Mono(v, m, h, m);
    } else {
      Mono(h + 1, m, v, m);
      assert (h + 1) * m == h * m + m;
    }
  }

  // ---------- many words divided by one ----------

  /** Divides from the most significant word down, each remainder leading into the next word. */
  method DivideByWord(a: array<nat>, v: nat, quotient: array<nat>, n: nat, c: nat) returns (rem: nat)
    requires c > 0 && 0 < v < Pow2(2 * c) && n <= a.Length && n <= quotient.Length
    requires InBase(a[..], Pow2(2 * c))
    modifies quotient
    ensures rem < v && InBase(quotient[..n], Pow2(2 * c)) && quotient[n..] == old(quotient[n..])
    ensures Value(old(a[..n]), Pow2(2 * c)) == Value(quotient[..n], Pow2(2 * c)) * v + rem
  {
    ghost var s: seq<nat>, b := a[..n], Pow2(2 * c);
    rem := 0;
    var i := n;
    assert s[n..] == [] && quotient[n..n] == [];
    assert Value([], b) == 0;
    hide DivMod, Pow2, Value;
    while i > 0
      invariant 0 <= i <= n && a[..i] == s[..i] && rem < v && quotient[n..] == old(quotient[n..])
      invariant InBase(quotient[i..n], b)
      invariant Value(s[i..], b) == Value(quotient[i..n], b) * v + rem
    {
      i := i - 1;
      ghost var q: seq<nat>, above := quotient[i + 1..n], rem;
      assert a[i] == s[i] && s[i] < b by { assert a[..i + 1][i] == s[..i + 1][i]; }
      DivModExact(rem, a[i], v, c);
      var (qhat, rhat) := DivMod(rem, a[i], v, c);
      quotient[i] := qhat;
      rem := rhat;
      assert quotient[i..n] == [qhat] + q && s[i..] == [s[i]] + s[i + 1..];
      NextQuotient(s[i], s[i + 1..], qhat, q, above, rhat, v, b);
    }
    assert s[0..] == s && quotient[0..n] == quotient[..n];
  }

  lemma NextQuotient(x: nat, s: seq<nat>, qhat: nat, q: seq<nat>, above: nat, rem: nat, v: nat, b: nat)
    requires Value(s, b) == Value(q, b) * v + above && above * b + x == qhat * v + rem
    ensures Value([x] + s, b) == Value([qhat] + q, b) * v + rem
  {
    hide Value;
    ValueCons(x, s, b);
    ValueCons(qhat, q, b);
    BringDown(x, Value(s, b), qhat, Value(q, b), above, rem, v, b);
  }

  lemma BringDown(x: nat, s: nat, qhat: nat, q: nat, above: nat, rem: nat, v: nat, b: nat)
    requires s == q * v + above && above * b + x == qhat * v + rem
    ensures x + b * s == (qhat + b * q) * v + rem
  {
    assert b * s == b * (q * v) + above * b;
    assert (qhat + b * q) * v == qhat * v + b * (q * v);
  }
}
