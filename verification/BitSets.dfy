/** Fixed-width unsigned integers: `width` bits kept in words of `w` bits, least significant
    word first. */
module BitSets {
  import opened Bitwise
  import opened Words
  import opened BitSums
  import opened BitShifts
  import opened BitRotations

  /** How many words hold `width` bits. */
  function WordCount(width: nat, w: nat): nat
    requires w > 0
  {
    (width + w - 1) / w
  }

  /** The words below the partial one, if the top word is partial. */
  function WholeWords(width: nat, w: nat): nat
    requires w > 0
  {
    if width % w > 0 then WordCount(width, w) - 1 else WordCount(width, w)
  }

  lemma CountWords(width: nat, w: nat)
    requires w > 0 && width > 0
    ensures WordCount(width, w) > 0
    ensures width == w * WholeWords(width, w) + width % w
    ensures WholeWords(width, w) == WordCount(width, w) - if width % w > 0 then 1 else 0
  {
    var d, r := width / w, width % w;
    assert width == w * d + r;
    if r > 0 {
      assert width + w - 1 == w * (d + 1) + (r - 1);
      Euclid(width + w - 1, w, d + 1, r - 1);
    } else {
      assert width + w - 1 == w * d + (w - 1);
      Euclid(width + w - 1, w, d, w - 1);
    }
  }

  /** The words are in range and, where the top word is partial, so is it. */
  ghost predicate Fits(s: seq<nat>, width: nat, w: nat)
    requires w > 0
  {
    && |s| == WordCount(width, w) && InBase(s, Pow2(w))
    && (width % w > 0 ==> |s| > 0 && s[|s| - 1] < Pow2(width % w))
  }

  lemma Pow2Zero()
    ensures Pow2(0) == 1
  {
  }

  lemma WidthPower(width: nat, w: nat)
    requires w > 0 && width > 0
    ensures Pow2(width) == Power(Pow2(w), WholeWords(width, w)) * Pow2(width % w)
  {
    CountWords(width, w);
    PowerOfWord(w, WholeWords(width, w));
    Pow2Splits(width, width % w);
  }

  /** In-range words hold exactly the numbers below 2^width. */
  lemma FitsBound(s: seq<nat>, width: nat, w: nat)
    requires w > 0 && width > 0 && |s| == WordCount(width, w) && InBase(s, Pow2(w))
    ensures Fits(s, width, w) <==> Value(s, Pow2(w)) < Pow2(width)
  {
    hide Power, Value, WordCount, WholeWords, Pow2;
    CountWords(width, w);
    WidthPower(width, w);
    if width % w > 0 {
      TopFits(s, Pow2(w), Pow2(width % w));
    } else {
      Pow2Zero();
      ValueBound(s, Pow2(w));
    }
  }

  lemma TopFits(s: seq<nat>, b: nat, t: nat)
    requires s != [] && InBase(s, b)
    ensures s[|s| - 1] < t <==> Value(s, b) < Power(b, |s| - 1) * t
  {
    hide Power, Value;
    var m := |s| - 1;
    ValueNext(s, m, b);
    assert s[..m + 1] == s;
    ValueBound(s[..m], b);
    TopWord(Value(s[..m], b), s[m], Power(b, m), t);
  }

  lemma TopWord(low: nat, x: nat, p: nat, t: nat)
    requires low < p
    ensures low + p * x < p * t <==> x < t
  {
    if x < t {
      assert p * (x + 1) <= p * t;
    } else {
      assert p * x >= p * t;
    }
  }

  /** Masking the top word reduces the number modulo 2^width. */
  lemma MaskTop(s: seq<nat>, width: nat, w: nat)
    requires w > 0 && width > 0 && |s| == WordCount(width, w) && InBase(s, Pow2(w))
    ensures var t := width % w;
      var s' := if t > 0 && |s| > 0 then s[|s| - 1 := s[|s| - 1] % Pow2(t)] else s;
      Fits(s', width, w) && Value(s', Pow2(w)) == Value(s, Pow2(w)) % Pow2(width)
  {
    hide Power, Value, WordCount, WholeWords, Pow2;
    Pow2Zero();
    CountWords(width, w);
    WidthPower(width, w);
    var b, m, t := Pow2(w), WholeWords(width, w), width % w;
    ValueBound(s, b);
    if t > 0 {
      var x := s[m] % Pow2(t);
      var s' := s[m := x];
      Pow2Less(t, w);
      ValueNext(s, m, b);
      ValueNext(s', m, b);
      assert s[..m + 1] == s && s'[..m + 1] == s' && s'[..m] == s[..m];
      ValueBound(s[..m], b);
      MaskedValue(Value(s[..m], b), s[m], Power(b, m), Pow2(t));
    } else {
      Euclid(Value(s, b), Power(b, m), 0, Value(s, b));
    }
  }

  lemma MaskedValue(low: nat, x: nat, p: nat, t: nat)
    requires low < p && t > 0
    ensures p * t > 0 && (low + p * x) % (p * t) == low + p * (x % t)
  {
    var d, r := x / t, x % t;
    assert x == t * d + r;
    assert p * x == (p * t) * d + p * r;
    assert p * (r + 1) <= p * t;
    Euclid(low + p * x, p * t, d, low + p * r);
  }

  // ---------- sums and differences as numbers ----------

  /** The value of all words from the value of the whole ones and the partial one. */
  lemma WithTop(s: seq<nat>, width: nat, w: nat)
    requires w > 0 && width > 0 && |s| == WordCount(width, w)
    ensures WholeWords(width, w) <= |s|
    ensures Value(s, Pow2(w)) == Value(s[..WholeWords(width, w)], Pow2(w))
      + if width % w > 0 then Power(Pow2(w), WholeWords(width, w)) * s[|s| - 1] else 0
  {
    hide Power, Value, Pow2, WordCount, WholeWords;
    CountWords(width, w);
    var m := WholeWords(width, w);
    if width % w > 0 {
      ValueNext(s, m, Pow2(w));
      assert s[..m + 1] == s;
    } else {
      assert s[..m] == s;
    }
  }

  /** A single word, whole or partial. */
  lemma OneWord(width: nat, w: nat)
    requires w > 0 && width > 0 && WordCount(width, w) == 1
    ensures width <= w && Pow2(width) <= Pow2(w)
  {
    CountWords(width, w);
    if width % w == 0 { assert width == w; }
    if width < w { Pow2Less(width, w); }
  }

  lemma SmallQuotient(x: nat, t: nat)
    requires t > 0 && x < 2 * t
    ensures x / t != 0 <==> x >= t
  {
    if x < t { Euclid(x, t, 0, x); } else { Euclid(x, t, 1, x - t); }
  }

  lemma Settle(v: nat, sum: nat, c: nat, m: nat)
    requires m > 0 && v < m && c <= 1 && v + m * c == sum
    ensures v == sum % m && (c == 1 <==> sum >= m)
  {
    Euclid(sum, m, c, v);
  }

  lemma SettleBorrow(v: nat, x: nat, y: nat, c: nat, m: nat)
    requires m > 0 && v < m && c <= 1 && v + y == x + m * c && x < m && y < m
    ensures v == (x - y) % m && (c == 1 <==> x < y)
  {
    if c == 0 { Euclid(x - y, m, 0, v); } else { WrapOnce(x - y, m); }
  }

  lemma SummedAll(x: seq<nat>, y: seq<nat>, out: seq<nat>, c: bool, b: nat)
    requires |x| == |y| == |out| && Summed(x, y, out, |x|, c, b)
    ensures InBase(out, b) && Value(out, b) + Power(b, |out|) * Bit(c) == Value(x, b) + Value(y, b)
  {
    assert x[..|x|] == x && y[..|y|] == y && out[..|out|] == out;
  }

  lemma SumWhole(x: seq<nat>, y: seq<nat>, out: seq<nat>, c: bool, width: nat, w: nat)
    requires w > 0 && width > 0 && width % w == 0 && |x| == |y| == |out| == WordCount(width, w)
    requires Summed(x, y, out, WholeWords(width, w), c, Pow2(w))
    ensures Fits(out, width, w)
    ensures Value(out, Pow2(w)) == (Value(x, Pow2(w)) + Value(y, Pow2(w))) % Pow2(width)
    ensures c <==> Value(x, Pow2(w)) + Value(y, Pow2(w)) >= Pow2(width)
  {
    hide Power, Value, Pow2, WordCount, WholeWords, Summed, Fits;
    CountWords(width, w);
    WidthPower(width, w);
    Pow2Zero();
    SummedAll(x, y, out, c, Pow2(w));
    ValueBound(out, Pow2(w));
    FitsBound(out, width, w);
    Settle(Value(out, Pow2(w)), Value(x, Pow2(w)) + Value(y, Pow2(w)), Bit(c), Pow2(width));
  }

  /** The partial word on top of the whole ones: `r` stays and `q` is carried out. */
  lemma SumTop(x: seq<nat>, y: seq<nat>, out: seq<nat>, c: bool, r: nat, q: nat, m: nat, b: nat, t: nat)
    requires |x| == |y| == |out| == m + 1 && Summed(x, y, out, m, c, b)
    requires x[m] + y[m] + Bit(c) == r + t * q && r < t <= b
    ensures InBase(out[m := r], b)
    ensures Value(out[m := r], b) + (Power(b, m) * t) * q == Value(x, b) + Value(y, b)
  {
    hide Power, Value;
    var out' := out[m := r];
    assert out'[..m] == out[..m];
    InBaseSet(out, out', b);
    ValueNext(x, m, b);
    ValueNext(y, m, b);
    ValueNext(out', m, b);
    assert x[..m + 1] == x && y[..m + 1] == y && out'[..m + 1] == out';
    Step(Power(b, m), r, t, q, x[m], y[m], Bit(c));
    assert (t * Power(b, m)) * q == (Power(b, m) * t) * q;
  }

  lemma SumPartial(x: seq<nat>, y: seq<nat>, out: seq<nat>, c: bool, r: nat, q: nat, width: nat, w: nat)
    requires w > 0 && width > 0 && width % w > 0 && |out| == WordCount(width, w)
    requires Fits(x, width, w) && Fits(y, width, w)
    requires Summed(x, y, out, WholeWords(width, w), c, Pow2(w))
    requires x[|x| - 1] + y[|y| - 1] + Bit(c) == r + Pow2(width % w) * q && r < Pow2(width % w) && q <= 1
    ensures Fits(out[|out| - 1 := r], width, w)
    ensures Value(out[|out| - 1 := r], Pow2(w)) == (Value(x, Pow2(w)) + Value(y, Pow2(w))) % Pow2(width)
    ensures q == 1 <==> Value(x, Pow2(w)) + Value(y, Pow2(w)) >= Pow2(width)
  {
    hide Power, Value, Pow2, WordCount, WholeWords, Summed, InBase;
    CountWords(width, w);
    WidthPower(width, w);
    TopSmall(width % w, w);
    SumTop(x, y, out, c, r, q, |out| - 1, Pow2(w), Pow2(width % w));
    hide Fits;
    var out' := out[|out| - 1 := r];
    FitsMeans(out', width, w);
    Settle(Value(out', Pow2(w)), Value(x, Pow2(w)) + Value(y, Pow2(w)), q, Pow2(width));
  }

  lemma SubtractedAll(x: seq<nat>, y: seq<nat>, out: seq<nat>, c: bool, b: nat)
    requires |x| == |y| == |out| && Subtracted(x, y, out, |x|, c, b)
    ensures InBase(out, b) && Value(out, b) + Value(y, b) == Value(x, b) + Power(b, |out|) * Bit(c)
  {
    assert x[..|x|] == x && y[..|y|] == y && out[..|out|] == out;
  }

  lemma DifferenceWhole(x: seq<nat>, y: seq<nat>, out: seq<nat>, c: bool, width: nat, w: nat)
    requires w > 0 && width > 0 && width % w == 0 && |x| == |y| == |out| == WordCount(width, w)
    requires Fits(x, width, w) && Fits(y, width, w)
    requires Subtracted(x, y, out, WholeWords(width, w), c, Pow2(w))
    ensures Fits(out, width, w)
    ensures Value(out, Pow2(w)) == (Value(x, Pow2(w)) - Value(y, Pow2(w))) % Pow2(width)
    ensures c <==> Value(x, Pow2(w)) < Value(y, Pow2(w))
  {
    hide Power, Value, Pow2, WordCount, WholeWords, Subtracted, InBase;
    CountWords(width, w);
    WidthPower(width, w);
    Pow2Zero();
    SubtractedAll(x, y, out, c, Pow2(w));
    FitsBound(x, width, w);
    FitsBound(y, width, w);
    FitsMeans(out, width, w);
    hide Fits;
    SettleBorrow(Value(out, Pow2(w)), Value(x, Pow2(w)), Value(y, Pow2(w)), Bit(c), Pow2(width));
  }

  /** The partial word on top: `q` is borrowed. */
  lemma DifferenceTop(x: seq<nat>, y: seq<nat>, out: seq<nat>, c: bool, r: nat, q: nat, m: nat, b: nat, t: nat)
    requires |x| == |y| == |out| == m + 1 && Subtracted(x, y, out, m, c, b)
    requires r + y[m] + Bit(c) == x[m] + t * q && r < t <= b
    ensures InBase(out[m := r], b)
    ensures Value(out[m := r], b) + Value(y, b) == Value(x, b) + (Power(b, m) * t) * q
  {
    hide Power, Value;
    var out' := out[m := r];
    assert out'[..m] == out[..m];
    InBaseSet(out, out', b);
    ValueNext(x, m, b);
    ValueNext(y, m, b);
    ValueNext(out', m, b);
    assert x[..m + 1] == x && y[..m + 1] == y && out'[..m + 1] == out';
    Step(Power(b, m), x[m], t, q, r, y[m], Bit(c));
    assert (t * Power(b, m)) * q == (Power(b, m) * t) * q;
  }

  lemma DifferencePartial(x: seq<nat>, y: seq<nat>, out: seq<nat>, c: bool, r: nat, q: nat, width: nat, w: nat)
    requires w > 0 && width > 0 && width % w > 0 && |out| == WordCount(width, w)
    requires Fits(x, width, w) && Fits(y, width, w)
    requires Subtracted(x, y, out, WholeWords(width, w), c, Pow2(w))
    requires r + y[|y| - 1] + Bit(c) == x[|x| - 1] + Pow2(width % w) * q && r < Pow2(width % w) && q <= 1
    ensures Fits(out[|out| - 1 := r], width, w)
    ensures Value(out[|out| - 1 := r], Pow2(w)) == (Value(x, Pow2(w)) - Value(y, Pow2(w))) % Pow2(width)
    ensures q == 1 <==> Value(x, Pow2(w)) < Value(y, Pow2(w))
  {
    hide Power, Value, Pow2, WordCount, WholeWords, Subtracted, InBase;
    CountWords(width, w);
    WidthPower(width, w);
    TopSmall(width % w, w);
    DifferenceTop(x, y, out, c, r, q, |out| - 1, Pow2(w), Pow2(width % w));
    FitsBound(x, width, w);
    FitsBound(y, width, w);
    hide Fits;
    var out' := out[|out| - 1 := r];
    FitsMeans(out', width, w);
    SettleBorrow(Value(out', Pow2(w)), Value(x, Pow2(w)), Value(y, Pow2(w)), q, Pow2(width));
  }

  /** A wrapped difference of partial words, and what masking leaves of it. */
  lemma SubTopWord(x: nat, y: nat, c: bool, t: nat, w: nat, k: nat)
    requires 0 < k < w && t == Pow2(k) && x < t && y < t
    ensures var d := Wrap(x - Bit(c) - y, Pow2(w));
      d % t < t && d % t + y + Bit(c) == x + t * Bit(d > x)
  {
    TopSmall(k, w);
    Pow2Splits(w, k);
    var u, b := Pow2(w - k), Pow2(w);
    hide Pow2, Wrap;
    WrapOnce(x - Bit(c) - y, b);
    MaskedDifference(x, y, Bit(c), t, u, Wrap(x - Bit(c) - y, b));
  }

  lemma MaskedDifference(x: nat, y: nat, c: nat, t: nat, u: nat, d: nat)
    requires t > 0 && u > 0 && x < t && y < t && c <= 1 && 2 * t <= u * t
    requires d == if x >= y + c then x - y - c else x - y - c + u * t
    ensures d % t < t && d % t + y + c == x + (if d > x then t else 0)
  {
    if x >= y + c {
      Euclid(d, t, 0, d);
    } else {
      Pred(t, u);
      Euclid(d, t, u - 1, x - y - c + t);
    }
  }

  lemma Pred(t: nat, u: nat)
    requires u > 0
    ensures u * t == t * (u - 1) + t
  {
  }

  /** What fits below the modulus and in words, fits. */
  lemma FitsMeans(s: seq<nat>, width: nat, w: nat)
    requires w > 0 && width > 0 && |s| == WordCount(width, w) && InBase(s, Pow2(w))
    requires width % w > 0 ==> |s| > 0 && s[|s| - 1] < Pow2(width % w)
    ensures Fits(s, width, w) && Value(s, Pow2(w)) < Pow2(width)
  {
    FitsBound(s, width, w);
  }

  lemma TopWords(x: seq<nat>, y: seq<nat>, width: nat, w: nat)
    requires w > 0 && width > 0 && width % w > 0 && Fits(x, width, w) && Fits(y, width, w)
    ensures WholeWords(width, w) == |x| - 1 == |y| - 1
    ensures var t := Pow2(width % w); 0 < t && 2 * t <= Pow2(w) && x[|x| - 1] < t && y[|y| - 1] < t
  {
    CountWords(width, w);
    TopSmall(width % w, w);
  }

  /** The partly used top word cannot overflow a whole one; what it carries beyond its bits is the overflow. */
  lemma SumTopWord(x: seq<nat>, y: seq<nat>, out: seq<nat>, c: bool, s: nat, q: nat, r: nat, width: nat, w: nat)
    requires w > 0 && width > 0 && width % w > 0 && |out| == WordCount(width, w)
    requires Fits(x, width, w) && Fits(y, width, w) && Summed(x, y, out, WholeWords(width, w), c, Pow2(w))
    requires |x| > 0 && |y| == |x| && Pow2(w) > 0 && Pow2(width % w) > 0
    requires s == Wrap(x[|x| - 1] + Bit(c) + y[|x| - 1], Pow2(w)) && s == r + Pow2(width % w) * q && r < Pow2(width % w)
    ensures WholeWords(width, w) == |x| - 1 == |out| - 1
    ensures var out' := out[|x| - 1 := r];
      && Fits(out', width, w)
      && Value(out', Pow2(w)) == (Value(x, Pow2(w)) + Value(y, Pow2(w))) % Pow2(width)
      && (q != 0 <==> Value(x, Pow2(w)) + Value(y, Pow2(w)) >= Pow2(width))
  {
    hide Power, Value, Pow2, Summed, Wrap, Fits, WordCount, WholeWords;
    CountWords(width, w);
    TopWords(x, y, width, w);
    var m, t := |x| - 1, Pow2(width % w);
    WrapOnce(x[m] + Bit(c) + y[m], Pow2(w));
    AtMostOne(s, t, q, r);
    SumPartial(x, y, out, c, r, q, width, w);
  }

  lemma AtMostOne(s: nat, t: nat, q: nat, r: nat)
    requires s < 2 * t && s == r + t * q
    ensures q <= 1
  {
    TwiceOrMore(t, q);
  }

  lemma TwiceOrMore(t: nat, q: nat)
    ensures q > 1 ==> t * q >= t * 2
  {
  }

  /** Quotient and remainder by a power of two. */
  method Split(s: nat, t: nat) returns (q: nat, r: nat)
    requires t > 0
    ensures s == r + t * q && r < t
  {
    q, r := s / t, s % t;
  }

  lemma TopSmall(t: nat, w: nat)
    requires 0 < t < w
    ensures 2 <= Pow2(t) && 2 * Pow2(t) <= Pow2(w)
  {
    Pow2Splits(w, t);
    Pow2Less(0, t);
    Pow2Less(0, w - t);
    assert Pow2(w) >= 2 * Pow2(t);
  }

  /** All words but the last are in range already. */
  lemma InBaseSet(s: seq<nat>, s': seq<nat>, b: nat)
    requires |s| == |s'| > 0 && InBase(s[..|s| - 1], b) && s'[..|s| - 1] == s[..|s| - 1] && s'[|s| - 1] < b
    ensures InBase(s', b)
  {
    forall i | 0 <= i < |s'| ensures s'[i] < b {
      if i < |s| - 1 { assert s'[..|s| - 1][i] == s[..|s| - 1][i]; }
    }
  }

  lemma ModMod(x: nat, m: nat, q: nat)
    requires m > 0 && q > 0
    ensures m * q > 0 && (x % (m * q)) % m == x % m
  {
    assert m * q > 0;
    var d, r := x / (m * q), x % (m * q);
    Recompose(x, m * q);
    Recompose(r, m);
    Nested(x, m, q, d, r, r / m, r % m);
    Euclid(x, m, q * d + r / m, r % m);
  }

  lemma Nested(x: nat, m: nat, q: nat, d: nat, r: nat, e: nat, s: nat)
    requires x == (m * q) * d + r && r == m * e + s
    ensures x == m * (q * d + e) + s
  {
    assert (m * q) * d == m * (q * d);
    assert m * (q * d + e) == m * (q * d) + m * e;
  }

  lemma SplitShift(k: nat, w: nat)
    requires w > 0
    ensures Pow2(k) == Power(Pow2(w), k / w) * Pow2(k % w)
  {
    var q, r := k / w, k % w;
    assert k == w * q + r;
    PowerOfWord(w, q);
    Pow2Splits(k, r);
  }

  /** The width divides what all the words hold. */
  lemma WidthDivides(width: nat, w: nat)
    requires w > 0 && width > 0
    ensures Power(Pow2(w), WordCount(width, w)) == Pow2(width) * Pow2(w * WordCount(width, w) - width)
  {
    WidthFits(width, w);
    hide WordCount, Pow2, Power;
    var n := WordCount(width, w);
    PowerOfWord(w, n);
    Pow2Splits(w * n, width);
    Commute(Pow2(width), Pow2(w * n - width));
  }

  /** What a left shift of the words means for the number of the given width. */
  lemma LeftNumber(s: seq<nat>, s': seq<nat>, k: nat, width: nat, w: nat)
    requires w > 0 && width > 0 && |s| == WordCount(width, w) && k / w < |s|
    requires ShiftedLeft(s, s', k / w, Pow2(k % w), Pow2(w)) && InBase(s', Pow2(w))
    ensures Value(s', Pow2(w)) % Pow2(width) == (Value(s, Pow2(w)) * Pow2(k)) % Pow2(width)
  {
    hide Pow2, Power, Value, ShiftedLeft, InBase, WordCount;
    ShiftLeftValue(s, s', k / w, Pow2(k % w), Pow2(w));
    SplitShift(k, w);
    WidthDivides(width, w);
    WidthFits(width, w);
    ModMod(Value(s, Pow2(w)) * Pow2(k), Pow2(width), Pow2(w * |s| - width));
  }

  lemma WidthFits(width: nat, w: nat)
    requires w > 0 && width > 0
    ensures width <= w * WordCount(width, w) < width + w
  {
    CountWords(width, w);
    if width % w > 0 {
      assert w * WordCount(width, w) == w * WholeWords(width, w) + w;
    }
  }

  /** A shift by more than all the words. */
  lemma ShiftedOut(x: nat, k: nat, width: nat, w: nat)
    requires w > 0 && width > 0 && k / w >= WordCount(width, w) && x < Pow2(width)
    ensures (x * Pow2(k)) % Pow2(width) == 0 && x / Pow2(k) == 0
  {
    WidthFits(width, w);
    Enough(k, width, w, WordCount(width, w));
    Pow2Splits(k, width);
    if k > width { Pow2Less(width, k); }
    hide Pow2;
    OutOfRange(x, Pow2(width), Pow2(k - width));
    Euclid(x, Pow2(k), 0, x);
  }

  lemma Enough(k: nat, width: nat, w: nat, n: nat)
    requires w > 0 && k / w >= n && width <= w * n
    ensures k >= width
  {
    assert k == w * (k / w) + k % w;
    Grows(w, k / w, n);
  }

  lemma OutOfRange(x: nat, m: nat, q: nat)
    requires m > 0
    ensures (x * (q * m)) % m == 0
  {
    assert x * (q * m) == m * (x * q);
    Euclid(x * (q * m), m, x * q, 0);
  }

  lemma RightNumber(s: seq<nat>, s': seq<nat>, k: nat, w: nat)
    requires w > 0 && k / w < |s| && InBase(s, Pow2(w)) && Pow2(w) == Pow2(k % w) * Pow2(w - k % w)
    requires ShiftedRight(s, s', k / w, Pow2(k % w), Pow2(w - k % w))
    ensures Value(s', Pow2(w)) == Value(s, Pow2(w)) / Pow2(k)
  {
    hide Pow2, Power, Value, ShiftedRight, InBase;
    ShiftRightValue(s, s', k / w, Pow2(k % w), Pow2(w - k % w));
    SplitShift(k, w);
  }

  lemma NoLarger(x: nat, d: nat)
    requires d > 0
    ensures x / d <= x
  {
    assert x == d * (x / d) + x % d;
    AtLeast(d, x / d);
  }

  lemma AtLeast(d: nat, q: nat)
    requires d > 0
    ensures d * q >= q
  {
  }

  /** The first `i` words hold one more, but for the carry; the rest is as before. */
  ghost predicate Incremented(s: seq<nat>, now: seq<nat>, i: nat, c: bool, b: nat)
  {
    && |now| == |s| && i <= |s| && InBase(now, b) && now[i..] == s[i..]
    && Value(now[..i], b) + Power(b, i) * Bit(c) == Value(s[..i], b) + 1
  }

  /** One more word takes the carry. */
  lemma NextIncremented(s: seq<nat>, now: seq<nat>, i: nat, b: nat)
    requires i < |s| && b > 1 && InBase(s, b)
    requires if i == 0 then now == s else Incremented(s, now, i, true, b)
    ensures |now| == |s| && now[i] == s[i]
    ensures Incremented(s, now[i := Wrap(s[i] + 1, b)], i + 1, s[i] == b - 1, b)
  {
    hide Value, Power;
    assert now[i] == s[i] by { if i > 0 { assert now[i..][0] == s[i..][0]; } }
    WrapOnce(s[i] + 1, b);
    var now' := now[i := Wrap(s[i] + 1, b)];
    assert now'[..i] == now[..i];
    assert now'[i + 1..] == s[i + 1..] by {
      forall k | i < k < |s| ensures now[k] == s[k] {
        if i > 0 { assert now[i..][k - i] == s[i..][k - i]; }
      }
    }
    ValueNext(now', i, b);
    ValueNext(s, i, b);
    CarryOn(Power(b, i), s[i], Wrap(s[i] + 1, b), b, Bit(s[i] == b - 1));
    if i == 0 { Empty(b); assert now[..0] == [] && s[..0] == []; }
    assert Power(b, i + 1) == b * Power(b, i) by { PowerStep(b, i); }
  }

  lemma PowerStep(b: nat, i: nat)
    ensures Power(b, i + 1) == b * Power(b, i)
  {
  }

  lemma Empty(b: nat)
    ensures Value([], b) == 0 && Power(b, 0) == 1
  {
  }

  lemma CarryOn(p: nat, x: nat, r: nat, b: nat, c: nat)
    requires r + b * c == x + 1
    ensures p * r + (b * p) * c == p * x + p
  {
    assert p * (r + b * c) == p * (x + 1);
    assert p * (b * c) == (b * p) * c;
  }

  lemma IncrementedAll(s: seq<nat>, now: seq<nat>, i: nat, c: bool, b: nat)
    requires Incremented(s, now, i, c, b)
    ensures Value(now, b) + Power(b, i) * Bit(c) == Value(s, b) + 1
  {
    hide Value, Power;
    assert now == now[..i] + now[i..] && s == s[..i] + s[i..];
    ValueAppend(now[..i], now[i..], b);
    ValueAppend(s[..i], s[i..], b);
  }

  /** The last carry, added to the last word. */
  ghost function Topped(now: seq<nat>, c: bool): seq<nat>
    requires now != []
  {
    now[|now| - 1 := now[|now| - 1] + Bit(c)]
  }

  lemma ToppedValue(s: seq<nat>, now: seq<nat>, i: nat, c: bool, b: nat, t: nat)
    requires Incremented(s, now, i, c, b) && s != [] && (c ==> i == |s| - 1) && s[|s| - 1] < t && t < b
    ensures InBase(Topped(now, c), b) && Value(Topped(now, c), b) == Value(s, b) + 1
  {
    hide Value, Power;
    IncrementedAll(s, now, i, c, b);
    if c {
      assert now[i..][0] == s[i..][0];
      hide Incremented;
      TopAdded(now, b);
    } else {
      assert Topped(now, c) == now;
    }
  }

  lemma TopAdded(now: seq<nat>, b: nat)
    requires now != []
    ensures Value(now[|now| - 1 := now[|now| - 1] + 1], b) == Value(now, b) + Power(b, |now| - 1)
  {
    hide Value, Power;
    var n := |now|;
    var x := now[n - 1 := now[n - 1] + 1];
    ValueNext(now, n - 1, b);
    ValueNext(x, n - 1, b);
    assert now[..n] == now && x[..n] == x && x[..n - 1] == now[..n - 1];
    assert Power(b, n - 1) * (now[n - 1] + 1) == Power(b, n - 1) * now[n - 1] + Power(b, n - 1);
  }

  lemma IncrementEnds(s: seq<nat>, now: seq<nat>, i: nat, c: bool, width: nat, w: nat)
    requires w > 0 && width > 0 && Fits(s, width, w) && Incremented(s, now, i, c, Pow2(w)) && i > 0
    requires c ==> s[i - 1] == Pow2(w) - 1 && i >= WholeWords(width, w)
    requires i <= WholeWords(width, w) || i == 1
    ensures now != []
    ensures width % w == 0 ==> Fits(now, width, w) && Value(now, Pow2(w)) == (Value(s, Pow2(w)) + 1) % Pow2(width)
    ensures width % w > 0 ==> |Topped(now, c)| == WordCount(width, w) && InBase(Topped(now, c), Pow2(w))
                              && Value(Topped(now, c), Pow2(w)) == Value(s, Pow2(w)) + 1
  {
    CountWords(width, w);
    hide Value, Power, Pow2, WordCount, WholeWords;
    if width % w == 0 {
      IncrementWhole(s, now, i, c, width, w);
    } else {
      TopSmall(width % w, w);
      ToppedValue(s, now, i, c, Pow2(w), Pow2(width % w));
    }
  }

  lemma IncrementWhole(s: seq<nat>, now: seq<nat>, i: nat, c: bool, width: nat, w: nat)
    requires w > 0 && width > 0 && width % w == 0 && Fits(s, width, w) && Incremented(s, now, i, c, Pow2(w))
    requires c ==> i == |s|
    ensures Fits(now, width, w) && Value(now, Pow2(w)) == (Value(s, Pow2(w)) + 1) % Pow2(width)
  {
    CountWords(width, w);
    WidthPower(width, w);
    Pow2Zero();
    IncrementedAll(s, now, i, c, Pow2(w));
    hide Value, Power, Pow2, WordCount, WholeWords;
    FitsBound(s, width, w);
    FitsMeans(now, width, w);
    hide Fits, InBase;
    Settle(Value(now, Pow2(w)), Value(s, Pow2(w)) + 1, Bit(c), Pow2(width));
  }

  /** Every bit of a number below 2^width inverted. */
  lemma Flipped(s: seq<nat>, now: seq<nat>, width: nat, w: nat)
    requires w > 0 && width > 0 && Fits(s, width, w) && |now| == |s| && WholeWords(width, w) <= |s|
    requires forall k :: 0 <= k < WholeWords(width, w) ==> now[k] == Pow2(w) - 1 - s[k]
    requires width % w > 0 ==> now[|s| - 1] == Pow2(width % w) - 1 - s[|s| - 1]
    ensures Fits(now, width, w) && Value(now, Pow2(w)) + Value(s, Pow2(w)) + 1 == Pow2(width)
  {
    hide Value, Power, Pow2, WordCount, WholeWords;
    CountWords(width, w);
    WidthPower(width, w);
    WithTop(s, width, w);
    WithTop(now, width, w);
    var m, b := WholeWords(width, w), Pow2(w);
    FlippedWords(s[..m], now[..m], b);
    if width % w > 0 {
      TopSmall(width % w, w);
      assert Power(b, m) * now[m] + Power(b, m) * s[m] + Power(b, m) == Power(b, m) * Pow2(width % w) by {
        Spread(Power(b, m), now[m], s[m], Pow2(width % w));
      }
    } else {
      Pow2Zero();
    }
    assert InBase(now, b);
  }

  lemma Spread(p: nat, x: nat, y: nat, t: nat)
    requires x + y + 1 == t
    ensures p * x + p * y + p == p * t
  {
  }

  lemma {:induction false} FlippedWords(s: seq<nat>, now: seq<nat>, b: nat)
    requires |s| == |now| && InBase(s, b) && forall k :: 0 <= k < |s| ==> now[k] == b - 1 - s[k]
    ensures Value(now, b) + Value(s, b) + 1 == Power(b, |s|)
  {
    if s != [] {
      FlippedWords(s[1..], now[1..], b);
      Spread(b, Value(now[1..], b), Value(s[1..], b), Power(b, |s| - 1));
    }
  }

  /** The two shifted halves do not overlap. */
  lemma Rejoin(v: nat, m: nat, width: nat)
    requires 0 < m < width && v < Pow2(width)
    ensures (v * Pow2(width - m)) % Pow2(width) == (v % Pow2(m)) * Pow2(width - m)
    ensures Or((v * Pow2(width - m)) % Pow2(width), v / Pow2(m)) == Rotated(v, m, width)
    ensures Or(v / Pow2(m), (v * Pow2(width - m)) % Pow2(width)) == Rotated(v, m, width)
  {
    RotatedBound(v, m, width);
    Pow2Splits(width, m);
    var t, u := Pow2(m), Pow2(width - m);
    hide Pow2;
    Commute(t, u);
    LowMultiple(v, u, t);
    var high, low := (v % t) * u, v / t;
    assert Rotated(v, m, width) == high + low && (v * u) % Pow2(width) == high;
    OrDisjoint(high, low, width - m);
    OrSwap(high, low);
  }

  class Bits {
    const width: nat
    const w: nat
    const native: bool  // the machine has a word of twice the width
    const buffer: array<nat>

    ghost predicate Shaped()
    {
      width > 0 && w > 0 && buffer.Length == WordCount(width, w)
    }

    ghost predicate Valid()
      reads buffer
    {
      Shaped() && Fits(buffer[..], width, w)
    }

    ghost predicate Alike(other: Bits)
    {
      other.width == width && other.w == w && other.native == native
    }

    /** Zero. */
    constructor (width: nat, w: nat, native: bool)
      requires width > 0 && w > 0
      ensures Valid() && this.width == width && this.w == w && this.native == native
      ensures fresh(buffer) && Number() == 0
    {
      this.width, this.w, this.native := width, w, native;
      buffer := new nat[WordCount(width, w)](_ => 0);
      new;
      assert buffer[..] == seq(buffer.Length, _ => 0);
      ValueZeros(buffer.Length, Pow2(w));
      FitsBound(buffer[..], width, w);
    }

    /** The number that the bits spell out. */
    ghost function Number(): nat
      reads buffer
    {
      Value(buffer[..], Pow2(w))
    }

    lemma Bounded()
      requires Valid()
      ensures Number() < Pow2(width)
    {
      FitsBound(buffer[..], width, w);
    }

    // ---------- adding and subtracting ----------

    /** The sum modulo 2^width, stored in `out`, which may be either operand. */
    method Add(other: Bits, out: Bits) returns (overflow: bool)
      requires Valid() && other.Valid() && out.Shaped() && Alike(other) && Alike(out)
      modifies out.buffer
      ensures out.Valid()
      ensures out.Number() == old(Number() + other.Number()) % Pow2(width)
      ensures overflow <==> old(Number() + other.Number()) >= Pow2(width)
    {
      if native && buffer.Length == 1 {
        overflow := AddNative(other, out);
      } else {
        overflow := AddSchoolbook(other, out);
      }
    }

    method AddNative(other: Bits, out: Bits) returns (overflow: bool)
      requires Valid() && other.Valid() && out.Shaped() && Alike(other) && Alike(out) && buffer.Length == 1
      modifies out.buffer
      ensures out.Valid()
      ensures out.Number() == old(Number() + other.Number()) % Pow2(width)
      ensures overflow <==> old(Number() + other.Number()) >= Pow2(width)
    {
      hide Power, Pow2, WordCount, WholeWords;
      OneWord(width, w);
      Bounded();
      other.Bounded();
      assert buffer[..] == [buffer[0]] && other.buffer[..] == [other.buffer[0]];
      ValueOne(buffer[0], Pow2(w));
      ValueOne(other.buffer[0], Pow2(w));
      var sum := buffer[0] + other.buffer[0];
      var t := Pow2(width);
      overflow := sum / t != 0;
      SmallQuotient(sum, t);
      out.buffer[0] := sum % t;
      assert out.buffer[..] == [sum % t];
      ValueOne(sum % t, Pow2(w));
      FitsBound(out.buffer[..], width, w);
    }

    method AddSchoolbook(other: Bits, out: Bits) returns (overflow: bool)
      requires Valid() && other.Valid() && out.Shaped() && Alike(other) && Alike(out)
      modifies out.buffer
      ensures out.Valid()
      ensures out.Number() == old(Number() + other.Number()) % Pow2(width)
      ensures overflow <==> old(Number() + other.Number()) >= Pow2(width)
    {
      hide Power, Pow2, Value, WordCount, WholeWords, Summed, Wrap;
      CountWords(width, w);
      Pow2Less(0, w);
      Pow2Zero();
      ghost var x: seq<nat>, y: seq<nat> := buffer[..], other.buffer[..];
      var m := WholeWords(width, w);
      overflow := AddWords(buffer, other.buffer, out.buffer, m, Pow2(w));
      if width % w > 0 {
        ghost var partial: seq<nat> := out.buffer[..];
        ghost var carry := overflow;
        assert buffer[m] == x[m] && other.buffer[m] == y[m] by {
          assert out.buffer[m..][0] == old(out.buffer[m..])[0];
        }
        TopWords(x, y, width, w);
        var s, t := Wrap(buffer[m] + Bit(overflow) + other.buffer[m], Pow2(w)), Pow2(width % w);
        var q, r := Split(s, t);
        SumTopWord(x, y, partial, carry, s, q, r, width, w);
        overflow := q != 0;
        out.buffer[m] := r;
      } else {
        SumWhole(x, y, out.buffer[..], overflow, width, w);
      }
    }

    /** The difference modulo 2^width, stored in `out`, which may be either operand. */
    method Sub(other: Bits, out: Bits) returns (overflow: bool)
      requires Valid() && other.Valid() && out.Shaped() && Alike(other) && Alike(out)
      modifies out.buffer
      ensures out.Valid()
      ensures out.Number() == old(Number() - other.Number()) % Pow2(width)
      ensures overflow <==> old(Number() < other.Number())
    {
      hide Power, Pow2, Value, WordCount, WholeWords, Subtracted, Wrap;
      CountWords(width, w);
      Pow2Less(0, w);
      Pow2Zero();
      ghost var x: seq<nat>, y: seq<nat> := buffer[..], other.buffer[..];
      var m := WholeWords(width, w);
      overflow := SubWords(buffer, other.buffer, out.buffer, m, Pow2(w));
      if width % w > 0 {
        ghost var partial: seq<nat> := out.buffer[..];
        ghost var borrow := overflow;
        assert buffer[m] == x[m] && other.buffer[m] == y[m] by {
          assert out.buffer[m..][0] == old(out.buffer[m..])[0];
        }
        TopWords(x, y, width, w);
        var t := Pow2(width % w);
        SubTopWord(x[m], y[m], borrow, t, w, width % w);
        var d := Wrap(buffer[m] as int - Bit(overflow) - other.buffer[m], Pow2(w));
        overflow := d > buffer[m];
        DifferencePartial(x, y, partial, borrow, d % t, Bit(overflow), width, w);
        out.buffer[m] := d % t;
      } else {
        DifferenceWhole(x, y, out.buffer[..], overflow, width, w);
      }
    }

    // ---------- shifting ----------

    method MaskTopWord()
      requires Shaped() && InBase(buffer[..], Pow2(w))
      modifies buffer
      ensures Valid() && Number() == old(Number()) % Pow2(width)
    {
      ghost var s: seq<nat> := buffer[..];
      MaskTop(s, width, w);
      CountWords(width, w);
      hide Pow2, Value, WordCount;
      if width % w > 0 {
        buffer[buffer.Length - 1] := buffer[buffer.Length - 1] % Pow2(width % w);
        assert buffer[..] == s[|s| - 1 := s[|s| - 1] % Pow2(width % w)];
      }
    }

    method Clear()
      requires Shaped()
      modifies buffer
      ensures Valid() && Number() == 0
    {
      ClearFrom(buffer, 0);
      assert buffer[..] == seq(buffer.Length, _ => 0);
      ValueZeros(buffer.Length, Pow2(w));
      FitsBound(buffer[..], width, w);
    }

    /** Multiplies by 2^k, modulo 2^width, in place. */
    method ShiftLeft(k: nat)
      requires Valid()
      modifies buffer
      ensures Valid() && Number() == (old(Number()) * Pow2(k)) % Pow2(width)
    {
      hide Pow2, Value, WordCount, ShiftedLeft, Power;
      Bounded();
      ghost var s: seq<nat> := buffer[..];
      var whole := k / w;
      if whole < buffer.Length {
        ShiftUp(buffer, whole, k % w, w);
        LeftNumber(s, buffer[..], k, width, w);
        MaskTopWord();
      } else {
        ShiftedOut(Number(), k, width, w);
        Clear();
      }
    }

    /** Divides by 2^k in place. */
    method ShiftRight(k: nat)
      requires Valid()
      modifies buffer
      ensures Valid() && Number() == old(Number()) / Pow2(k)
    {
      hide Pow2, Value, WordCount, ShiftedRight, Power;
      Bounded();
      ghost var s: seq<nat> := buffer[..];
      var whole := k / w;
      if whole < buffer.Length {
        ShiftDown(buffer, whole, k % w, w);
        RightNumber(s, buffer[..], k, w);
        NoLarger(Value(s, Pow2(w)), Pow2(k));
        FitsBound(buffer[..], width, w);
      } else {
        ShiftedOut(Number(), k, width, w);
        Clear();
      }
    }

    // ---------- rotating ----------

    constructor Copy(other: Bits)
      requires other.Valid()
      ensures Valid() && fresh(buffer) && Alike(other) && Number() == other.Number()
    {
      width, w, native := other.width, other.w, other.native;
      buffer := new nat[other.buffer.Length];
      new;
      for i := 0 to buffer.Length
        invariant buffer.Length == other.buffer.Length && forall k :: 0 <= k < i ==> buffer[k] == other.buffer[k]
      {
        buffer[i] := other.buffer[i];
      }
      assert buffer[..] == other.buffer[..];
    }

    method Join(other: Bits)
      requires Shaped() && other.Shaped() && Alike(other) && buffer != other.buffer
      requires InBase(buffer[..], Pow2(w)) && InBase(other.buffer[..], Pow2(w))
      modifies buffer
      ensures InBase(buffer[..], Pow2(w)) && Number() == Or(old(Number()), other.Number())
    {
      ghost var s: seq<nat>, t: seq<nat> := buffer[..], other.buffer[..];
      hide Or, Pow2, Value;
      for i := 0 to buffer.Length
        invariant forall k :: 0 <= k < i ==> buffer[k] == Or(s[k], t[k])
        invariant forall k :: i <= k < buffer.Length ==> buffer[k] == s[k]
      {
        buffer[i] := Or(buffer[i], other.buffer[i]);
      }
      assert buffer[..] == OrWords(s, t);
      OrNumber(s, t, w);
    }

    /** Bit i + n, counted around the width, moves to bit i; negative amounts turn the other way. */
    method Rotate(n: int)
      requires Valid()
      modifies buffer
      ensures Valid() && Number() == Rotated(old(Number()), Turn(n, width), width)
    {
      hide Or, Pow2, Value, WordCount, Rotated, Turn;
      var m := Remainder(n, width);
      ghost var v := Number();
      Bounded();
      TurnOfRemainder(n, width);
      if m == 0 {
        NoRotation(v, width);
        return;
      }
      Rejoin(v, Turn(n, width), width);
      RotatedBound(v, Turn(n, width), width);
      var temp := new Bits.Copy(this);
      if n > 0 {
        temp.ShiftRight(m);
        ShiftLeft(width - m);
      } else {
        temp.ShiftLeft(-m);
        ShiftRight(width + m);
      }
      Join(temp);
      FitsBound(buffer[..], width, w);
    }

    // ---------- negating ----------

    method Flip()
      requires Valid()
      modifies buffer
      ensures Valid() && Number() == Pow2(width) - 1 - old(Number())
    {
      ghost var s: seq<nat> := buffer[..];
      var b := Pow2(w);
      CountWords(width, w);
      Bounded();
      hide Pow2, Value, WordCount, WholeWords;
      var m := WholeWords(width, w);
      for i := 0 to m
        invariant forall k :: 0 <= k < i ==> buffer[k] == b - 1 - s[k]
        invariant forall k :: i <= k < buffer.Length ==> buffer[k] == s[k]
      {
        buffer[i] := b - 1 - buffer[i];
      }
      if width % w > 0 {
        buffer[m] := Pow2(width % w) - 1 - buffer[m];
      }
      Flipped(s, buffer[..], width, w);
    }

    /** The carry runs up through words that wrap around. */
    method CarryUp(ghost s: seq<nat>) returns (carry: bool, ghost i: nat)
      requires Valid() && s == buffer[..]
      modifies buffer
      ensures 0 < i && (i <= WholeWords(width, w) || i == 1) && Incremented(s, buffer[..], i, carry, Pow2(w))
      ensures carry ==> i >= WholeWords(width, w) && i <= |s| && s[i - 1] == Pow2(w) - 1
    {
      var b := Pow2(w);
      CountWords(width, w);
      Pow2Less(0, w);
      Pow2Zero();
      hide Pow2, Value, WordCount, WholeWords, Power, Wrap, Incremented;
      NextIncremented(s, s, 0, b);
      carry := buffer[0] == b - 1;
      buffer[0] := Wrap(buffer[0] + 1, b);
      assert buffer[..] == s[0 := Wrap(s[0] + 1, b)];
      var m := WholeWords(width, w);
      var at := 1;
      while carry && at < m
        invariant 1 <= at && (at <= m || at == 1) && Incremented(s, buffer[..], at, carry, b)
        invariant carry ==> at <= |s| && s[at - 1] == b - 1
        decreases m - at
      {
        ghost var now: seq<nat> := buffer[..];
        NextIncremented(s, now, at, b);
        carry := buffer[at] == b - 1;
        buffer[at] := Wrap(buffer[at] + 1, b);
        assert buffer[..] == now[at := Wrap(s[at] + 1, b)];
        at := at + 1;
      }
      i := at;
    }

    method Increment()
      requires Valid()
      modifies buffer
      ensures Valid() && Number() == (old(Number()) + 1) % Pow2(width)
    {
      ghost var s: seq<nat> := buffer[..];
      hide Pow2, Value, WordCount, WholeWords, Power, Incremented;
      CountWords(width, w);
      var carry, i := CarryUp(s);
      ghost var now: seq<nat> := buffer[..];
      IncrementEnds(s, now, i, carry, width, w);
      if width % w > 0 {
        var last := buffer.Length - 1;
        ghost var topped := Topped(now, carry);
        MaskTop(topped, width, w);
        buffer[last] := (buffer[last] + Bit(carry)) % Pow2(width % w);
        assert buffer[..] == topped[last := topped[last] % Pow2(width % w)];
      }
    }

    /** Two's complement. */
    method Negate()
      requires Valid()
      modifies buffer
      ensures Valid() && Number() == (Pow2(width) - old(Number())) % Pow2(width)
    {
      hide Pow2;
      Bounded();
      Flip();
      Increment();
    }
  }
}
