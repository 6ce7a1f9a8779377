/** Printing and parsing in a power-of-two base: `d` bits a digit. */
module BitText {
  import opened Options
  import opened Bitwise
  import opened Words
  import opened BitSums
  import opened BitShifts
  import opened BitRotations
  import opened BitSets
  import opened Digits

  // ---------- the highest bit that is set ----------

  /** All words from `j` on are zero. */
  ghost predicate ZeroFrom(s: seq<nat>, j: nat)
  {
    forall k :: j <= k < |s| ==> s[k] == 0
  }

  lemma {:induction false} ZeroTail(s: seq<nat>, j: nat, b: nat)
    requires j <= |s| && ZeroFrom(s, j)
    ensures Value(s, b) == Value(s[..j], b)
    decreases |s|
  {
    if j < |s| {
      var m := |s| - 1;
      ValueNext(s, m, b);
      assert s[..m + 1] == s && s[m] == 0;
      ZeroTail(s[..m], j, b);
      assert s[..m][..j] == s[..j];
    } else {
      assert s[..j] == s;
    }
  }

  /** The length of a number whose highest nonzero word is word `j`. */
  lemma LengthOfTop(s: seq<nat>, j: nat, w: nat)
    requires j < |s| && w > 0 && InBase(s, Pow2(w)) && ZeroFrom(s, j + 1) && s[j] > 0
    ensures BitLength(Value(s, Pow2(w))) == w * j + BitLength(s[j])
  {
    hide Pow2, Value, Power, BitLength;
    var b, x := Pow2(w), s[j];
    ZeroTail(s, j + 1, b);
    ValueNext(s, j, b);
    ValueBound(s[..j], b);
    BitLengthExact(x);
    var n := BitLength(x);
    PowerOfWord(w, j);
    Pow2Splits(w * j + n, n);
    Pow2Splits(w * j + n - 1, n - 1);
    TopBounds(Value(s[..j], b), x, Power(b, j), Pow2(n), Pow2(n - 1));
    LengthCompares(Value(s, b), w * j + n - 1);
    LengthCompares(Value(s, b), w * j + n);
  }

  lemma TopBounds(low: nat, x: nat, p: nat, t: nat, h: nat)
    requires low < p && h <= x < t
    ensures p * h <= low + p * x < p * t
  {
    assert p * (x + 1) <= p * t;
    assert p * h <= p * x;
  }

  lemma NoBits(s: seq<nat>, b: nat)
    requires ZeroFrom(s, 0)
    ensures Value(s, b) == 0
  {
    ZeroTail(s, 0, b);
  }

  lemma FewBits(s: seq<nat>, j: nat, w: nat)
    requires j <= |s| && w > 0 && InBase(s, Pow2(w)) && ZeroFrom(s, j)
    ensures BitLength(Value(s, Pow2(w))) <= w * j
  {
    hide Pow2, Value, BitLength, Power;
    ZeroTail(s, j, Pow2(w));
    ValueBound(s[..j], Pow2(w));
    PowerOfWord(w, j);
    LengthCompares(Value(s, Pow2(w)), w * j);
  }

  /** One more than the index of the highest bit, or zero: searches the words from the top. */
  method LastOne(bits: Bits) returns (length: nat)
    requires bits.Valid()
    ensures length == BitLength(bits.Number())
  {
    hide Pow2, Value, BitLength, Power;
    ghost var s: seq<nat> := bits.buffer[..];
    var i := bits.buffer.Length;
    while i > 0
      invariant 0 <= i <= bits.buffer.Length && ZeroFrom(s, i)
    {
      i := i - 1;
      if bits.buffer[i] != 0 {
        LengthOfTop(s, i, bits.w);
        return bits.w * i + BitLength(bits.buffer[i]);
      }
    }
    NoBits(s, Pow2(bits.w));
    ZeroLength();
    return 0;
  }

  lemma ZeroLength()
    ensures BitLength(0) == 0
  {
  }

  // ---------- parsing ----------

  datatype Outcome = Parsed | NotDigit | Overflow

  /** Shifting by `d` bits would lose some. */
  lemma ShiftOverflows(v: nat, d: nat, width: nat)
    ensures v * Pow2(d) >= Pow2(width) <==> v > 0 && BitLength(v) + d > width
  {
    if d > width {
      WideShift(v, d, width);
    } else {
      NarrowShift(v, d, width);
    }
  }

  lemma WideShift(v: nat, d: nat, width: nat)
    requires d > width
    ensures v * Pow2(d) >= Pow2(width) <==> v > 0
  {
    Pow2Less(width, d);
    hide Pow2;
    Compare(v, 1, Pow2(d));
  }

  lemma NarrowShift(v: nat, d: nat, width: nat)
    requires d <= width
    ensures v * Pow2(d) >= Pow2(width) <==> v > 0 && BitLength(v) + d > width
  {
    hide Pow2, BitLength;
    Pow2Splits(width, d);
    LengthCompares(v, width - d);
    LengthZero(v);
    Compare(v, Pow2(width - d), Pow2(d));
  }

  lemma Compare(v: nat, p: nat, t: nat)
    requires t > 0
    ensures v * t >= p * t <==> v >= p
  {
    if v < p { assert (v + 1) * t <= p * t; }
    if v >= p { assert v * t >= p * t; }
  }

  /** Whether a left shift by `d` would lose bits: the distance of the highest bit from the top
      is looked for from the last word down, and given up once it exceeds `d`. */
  method WouldOverflow(bits: Bits, d: nat) returns (overflow: bool)
    requires bits.Valid()
    ensures overflow <==> bits.Number() * Pow2(d) >= Pow2(bits.width)
  {
    hide Pow2, Value, BitLength, Power, WordCount;
    ghost var s: seq<nat> := bits.buffer[..];
    ShiftOverflows(bits.Number(), d, bits.width);
    LengthZero(bits.Number());
    CountWords(bits.width, bits.w);
    WidthFits(bits.width, bits.w);
    var w, j := bits.w, bits.buffer.Length - 1;
    if bits.buffer[j] != 0 {
      LengthOfTop(s, j, w);
      LengthZero(s[j]);
      return bits.width - (w * j + BitLength(bits.buffer[j]) - 1) <= d;
    }
    var distance := bits.width % w;
    while distance <= d && j > 0
      invariant 0 <= j < |s| && ZeroFrom(s, j) && distance + w * j <= bits.width
      decreases j
    {
      j := j - 1;
      if bits.buffer[j] != 0 {
        LengthOfTop(s, j, w);
        LengthZero(s[j]);
        distance := bits.width - (w * j + BitLength(bits.buffer[j]) - 1);
        return distance <= d;
      }
      distance := distance + w;
    }
    FewBits(s, j, w);
    return false;
  }

  /** Whether the top bit is set, which the last word tells. */
  method MsbSet(bits: Bits) returns (set_: bool)
    requires bits.Valid()
    ensures set_ <==> bits.Number() * Pow2(1) >= Pow2(bits.width)
  {
    hide Value, BitLength, Power, WordCount, WholeWords;
    ghost var s: seq<nat> := bits.buffer[..];
    NarrowShift(bits.Number(), 1, bits.width);
    LengthZero(bits.Number());
    CountWords(bits.width, bits.w);
    TopBit(bits.width, bits.w);
    var last := bits.buffer.Length - 1;
    var k := (bits.width - 1) % bits.w;
    set_ := bits.buffer[last] >= Pow2(k);
    TopBitSet(s[last], k);
    hide Pow2;
    if s[last] > 0 {
      LengthOfTop(s, last, bits.w);
    } else {
      FewBits(s, last, bits.w);
      ZeroLength();
    }
  }

  /** Where the top bit is. */
  lemma TopBit(width: nat, w: nat)
    requires w > 0 && width > 0
    ensures var k := (width - 1) % w;
      width == w * (WordCount(width, w) - 1) + k + 1 && (if width % w > 0 then k + 1 == width % w else k + 1 == w)
  {
    CountWords(width, w);
    var r := width % w;
    if r > 0 {
      Euclid(width - 1, w, WordCount(width, w) - 1, r - 1);
    } else {
      Less(w, WordCount(width, w));
      Euclid(width - 1, w, WordCount(width, w) - 1, w - 1);
    }
  }

  lemma Less(w: nat, n: nat)
    ensures n > 0 ==> w * n == w * (n - 1) + w
  {
  }

  lemma TopBitSet(x: nat, k: nat)
    requires x < Pow2(k + 1)
    ensures x >= Pow2(k) <==> BitLength(x) == k + 1
    ensures BitLength(x) <= k + 1
  {
    LengthCompares(x, k);
    LengthCompares(x, k + 1);
  }

  /** The low word of a shifted number has room for a digit. */
  lemma RoomForDigit(s: seq<nat>, v: nat, digit: nat, d: nat, w: nat)
    requires s != [] && d <= w && InBase(s, Pow2(w)) && Value(s, Pow2(w)) == v * Pow2(d) && digit < Pow2(d)
    ensures Or(s[0], digit) == s[0] + digit < Pow2(w)
    ensures Value(s[0 := s[0] + digit], Pow2(w)) == v * Pow2(d) + digit
  {
    Pow2Splits(w, d);
    var t, u := Pow2(d), Pow2(w - d);
    var rest := Value(s[1..], Pow2(w));
    LowMultipleOf(s[0], v, rest, t, u);
    OrDisjoint(s[0], digit, d);
    SumBelow(s[0], digit, t, u);
    assert s[0 := s[0] + digit][1..] == s[1..];
  }

  lemma LowMultipleOf(x: nat, v: nat, rest: nat, t: nat, u: nat)
    requires t > 0 && x + (u * t) * rest == v * t
    ensures x % t == 0
  {
    assert (u * t) * rest == t * (u * rest);
    assert v * t == t * v;
    assert x == t * (v - u * rest);
    Nonnegative(t, v - u * rest);
    Euclid(x, t, v - u * rest, 0);
  }

  lemma Nonnegative(t: nat, k: int)
    requires t > 0 && t * k >= 0
    ensures k >= 0
  {
  }

  lemma DigitFits(v: nat, digit: nat, d: nat, width: nat)
    requires d <= width && v * Pow2(d) < Pow2(width) && digit < Pow2(d)
    ensures v * Pow2(d) + digit < Pow2(width)
  {
    Pow2Splits(width, d);
    var p, t := Pow2(width - d), Pow2(d);
    hide Pow2;
    Compare(v, p, t);
    NextFits(v, p, t);
  }

  lemma NextFits(v: nat, p: nat, t: nat)
    requires v < p
    ensures v * t + t <= p * t
  {
    var k := p - (v + 1);
    assert (v + 1 + k) * t == v * t + t + k * t;
  }

  /** Shifts the number up and joins one more digit, of which only as many bits as there are count. */
  method AppendDigit(bits: Bits, digit: nat, d: nat)
    requires bits.Valid() && d <= bits.w && digit < Pow2(d)
    requires bits.Number() * Pow2(d) < Pow2(bits.width)
    modifies bits.buffer
    ensures bits.Valid() && bits.Number() == old(bits.Number()) * Pow2(d) + digit % Pow2(bits.width)
  {
    hide Pow2, Value, BitLength, Power, WordCount, WholeWords, Or;
    ghost var v := bits.Number();
    CountWords(bits.width, bits.w);
    MaskedFits(v, digit, d, bits.width);
    bits.ShiftLeft(d);
    Euclid(v * Pow2(d), Pow2(bits.width), 0, v * Pow2(d));
    ghost var s: seq<nat> := bits.buffer[..];
    var low := digit % Pow2(bits.width);
    RoomForDigit(s, v, low, d, bits.w);
    bits.buffer[0] := Or(bits.buffer[0], low);
    assert bits.buffer[..] == s[0 := s[0] + low];
    FitsBound(bits.buffer[..], bits.width, bits.w);
  }

  lemma MaskedFits(v: nat, digit: nat, d: nat, width: nat)
    requires v * Pow2(d) < Pow2(width) && digit < Pow2(d)
    ensures digit % Pow2(width) < Pow2(d) && v * Pow2(d) + digit % Pow2(width) < Pow2(width)
    ensures d <= width ==> digit % Pow2(width) == digit
  {
    if d <= width {
      Pow2Mono(d, width);
      hide Pow2;
      Euclid(digit, Pow2(width), 0, digit);
      DigitFits(v, digit, d, width);
    } else {
      WideShift(v, d, width);
      Pow2Less(width, d);
      hide Pow2;
    }
  }

  /** No digit of the text is too large for the width by itself. */
  ghost predicate SmallDigits(text: seq<nat>, d: nat, width: nat)
  {
    forall i :: 0 <= i < |text| && text[i] < Pow2(d) ==> text[i] < Pow2(width)
  }

  lemma DigitsAreSmall(text: seq<nat>, d: nat, width: nat)
    requires d <= width || (AllDigits(text, d) && NumberOf(text, d) < Pow2(width))
    ensures SmallDigits(text, d, width)
  {
    if d <= width { Pow2Mono(d, width); } else {
      forall i | 0 <= i < |text| ensures text[i] < Pow2(width) {
        NumberNext(text, i, d);
        NumberGrows(text, i + 1, d);
        NotNegative(NumberOf(text[..i], d), Pow2(d));
      }
    }
  }

  /** What reading a text gives, if it does not stop early. */
  function Folded(text: seq<nat>, d: nat, width: nat): (r: Option<nat>)
  {
    if text == [] then Some(0)
    else
      var n := |text| - 1;
      match Folded(text[..n], d, width)
      case None => None
      case Some(v) =>
        if text[n] >= Pow2(d) || v * Pow2(d) >= Pow2(width) then None
        else Some(v * Pow2(d) + text[n] % Pow2(width))
  }

  lemma FoldedNext(text: seq<nat>, i: nat, d: nat, width: nat)
    requires i < |text|
    ensures Folded(text[..i + 1], d, width) == match Folded(text[..i], d, width)
      case None => None
      case Some(v) =>
        if text[i] >= Pow2(d) || v * Pow2(d) >= Pow2(width) then None else Some(v * Pow2(d) + text[i] % Pow2(width))
  {
    assert text[..i + 1][..i] == text[..i];
  }

  lemma {:induction false} FoldedStops(text: seq<nat>, i: nat, d: nat, width: nat)
    requires i <= |text| && Folded(text[..i], d, width) == None
    ensures Folded(text, d, width) == None
    decreases |text| - i
  {
    if i < |text| {
      FoldedNext(text, i, d, width);
      FoldedStops(text, i + 1, d, width);
    } else {
      assert text[..i] == text;
    }
  }

  /** Where parsing stops, with which number, and why. */
  ghost predicate Stops(text: seq<nat>, i: nat, d: nat, width: nat, outcome: Outcome, v: nat)
  {
    && i <= |text| && Folded(text[..i], d, width) == Some(v)
    && match outcome
       case Parsed => i == |text|
       case NotDigit => i < |text| && text[i] >= Pow2(d)
       case Overflow => i < |text| && text[i] < Pow2(d) && v * Pow2(d) >= Pow2(width)
  }

  /** The outcome is the right one for a text of digits. */
  ghost predicate Right(text: seq<nat>, d: nat, width: nat, outcome: Outcome, v: nat)
  {
    && outcome != NotDigit && (outcome == Overflow <==> NumberOf(text, d) >= Pow2(width))
    && (outcome == Parsed ==> v == NumberOf(text, d))
  }

  /** No digit is too large by itself, or one before the last is noticed to be in the way. */
  ghost predicate Readable(text: seq<nat>, d: nat, width: nat)
  {
    SmallDigits(text, d, width) || exists i :: 0 <= i < |text| - 1 && text[i] % Pow2(width) != 0
  }

  /** Reads the text one digit at a time.  Symbols from 2^d on stand for characters that are no
      digits.  A text of digits is read right exactly if it is readable. */
  method Parse(text: seq<nat>, d: nat, width: nat, w: nat, native: bool) returns (outcome: Outcome, bits: Bits)
    requires 0 < d <= w && width > 0
    ensures bits.Valid() && fresh(bits) && bits.width == width && bits.w == w
    ensures exists i :: Stops(text, i, d, width, outcome, bits.Number())
    ensures AllDigits(text, d) ==> (Right(text, d, width, outcome, bits.Number()) <==> Readable(text, d, width))
  {
    hide Pow2, Value, Power, WordCount, WholeWords, NumberOf, BitLength, Folded, Right, Readable, AllDigits;
    bits := new Bits(width, w, native);
    var i := 0;
    EmptyText(text, d, width);
    while i < |text|
      invariant 0 <= i <= |text| && bits.Valid() && fresh(bits) && fresh(bits.buffer)
      invariant bits.width == width && bits.w == w
      invariant Folded(text[..i], d, width) == Some(bits.Number())
    {
      FoldedNext(text, i, d, width);
      if text[i] >= Pow2(d) {
        StopsMeans(text, i, d, width, NotDigit, bits.Number());
        return NotDigit, bits;
      }
      var overflow: bool;
      if d == 1 {
        overflow := MsbSet(bits);
      } else {
        overflow := WouldOverflow(bits, d);
      }
      if overflow {
        StopsMeans(text, i, d, width, Overflow, bits.Number());
        return Overflow, bits;
      }
      AppendDigit(bits, text[i], d);
      i := i + 1;
    }
    assert text[..i] == text;
    StopsMeans(text, i, d, width, Parsed, bits.Number());
    return Parsed, bits;
  }

  lemma EmptyText(text: seq<nat>, d: nat, width: nat)
    ensures text[..0] == [] && NumberOf(text[..0], d) == 0 && Folded(text[..0], d, width) == Some(0)
  {
  }

  /** A digit more makes the number too large exactly when shifting already does. */
  lemma DigitOverflows(v: nat, digit: nat, d: nat, width: nat)
    requires digit < Pow2(d) && digit < Pow2(width)
    ensures v * Pow2(d) + digit >= Pow2(width) <==> v * Pow2(d) >= Pow2(width)
  {
    if d > width {
      WideShift(v, d, width);
    } else if v * Pow2(d) < Pow2(width) {
      DigitFits(v, digit, d, width);
    }
  }

  lemma StopsMeans(text: seq<nat>, i: nat, d: nat, width: nat, outcome: Outcome, v: nat)
    requires Stops(text, i, d, width, outcome, v)
    ensures exists i :: Stops(text, i, d, width, outcome, v)
    ensures AllDigits(text, d) ==> (Right(text, d, width, outcome, v) <==> Readable(text, d, width))
  {
    hide NumberOf, Pow2, Folded, Readable, SmallDigits;
    if AllDigits(text, d) {
      if outcome.Overflow? {
        FoldedNext(text, i, d, width);
        FoldedStops(text, i + 1, d, width);
      } else {
        assert text[..i] == text;
      }
      ReadRight(text, d, width);
    }
  }

  /** Reading a text of digits gives its number, or stops because that is too large, exactly if the text
      is readable. */
  lemma ReadRight(text: seq<nat>, d: nat, width: nat)
    requires AllDigits(text, d)
    ensures Readable(text, d, width) <==>
      Folded(text, d, width) == if NumberOf(text, d) < Pow2(width) then Some(NumberOf(text, d)) else None
  {
    if SmallDigits(text, d, width) {
      SmallRead(text, d, width);
    } else {
      if d <= width || NumberOf(text, d) < Pow2(width) { DigitsAreSmall(text, d, width); }
      WideRead(text, d, width);
    }
  }

  lemma {:induction false} SmallRead(text: seq<nat>, d: nat, width: nat)
    requires AllDigits(text, d) && SmallDigits(text, d, width)
    ensures Folded(text, d, width) == if NumberOf(text, d) < Pow2(width) then Some(NumberOf(text, d)) else None
  {
    if text != [] {
      var n := |text| - 1;
      SmallRead(text[..n], d, width);
      DigitOverflows(NumberOf(text[..n], d), text[n], d, width);
      hide Pow2;
      Larger(NumberOf(text[..n], d), Pow2(d));
      Euclid(text[n], Pow2(width), 0, text[n]);
    }
  }

  /** With digits wider than the number, reading goes on as long as it gives zero. */
  lemma {:induction false} WideRead(text: seq<nat>, d: nat, width: nat)
    requires AllDigits(text, d) && d > width
    ensures Folded(text, d, width) ==
      if exists i :: 0 <= i < |text| - 1 && text[i] % Pow2(width) != 0 then None
      else Some(if text == [] then 0 else text[|text| - 1] % Pow2(width))
  {
    if text != [] {
      var n := |text| - 1;
      var r := text[..n];
      WideRead(r, d, width);
      hide Pow2;
      assert forall i :: 0 <= i < n ==> r[i] == text[i];
      match Folded(r, d, width)
      case None =>
        var i :| 0 <= i < |r| - 1 && r[i] % Pow2(width) != 0;
        assert text[i] % Pow2(width) != 0;
      case Some(v) =>
        WideShift(v, d, width);
        if v > 0 { assert text[n - 1] % Pow2(width) != 0; }
    }
  }

  /** Every text of digits is readable exactly if a digit has no more bits than the number. */
  lemma AllReadableExactly(d: nat, width: nat)
    ensures (forall text :: AllDigits(text, d) ==> Readable(text, d, width)) <==> d <= width
  {
    hide Pow2;
    if d <= width {
      forall text | AllDigits(text, d) ensures Readable(text, d, width) {
        DigitsAreSmall(text, d, width);
      }
    } else {
      OversizedDigit(d, width);
    }
  }

  /** Otherwise the one digit 2^N is read as zero, with no overflow noticed. */
  lemma OversizedDigit(d: nat, width: nat)
    requires d > width
    ensures var text := [Pow2(width)];
      AllDigits(text, d) && NumberOf(text, d) == Pow2(width) && Folded(text, d, width) == Some(0)
        && !Readable(text, d, width)
  {
    var text := [Pow2(width)];
    Pow2Less(width, d);
    WideRead(text, d, width);
    hide Pow2;
    Euclid(Pow2(width), Pow2(width), 1, 0);
    assert text[..0] == [] && NumberOf([], d) == 0;
    assert text[0] == Pow2(width);
  }

  // ---------- printing ----------

  /** Extracting digit `j` reads the word after the one it starts in. */
  predicate Straddles(j: nat, d: nat, w: nat)
    requires w > 0
  {
    j * d % w + d > w
  }

  /** Extracting digit `j` reads past the last word. */
  predicate ReadsPastEnd(j: nat, d: nat, width: nat, w: nat)
    requires w > 0
  {
    Straddles(j, d, w) && j * d / w + 1 == WordCount(width, w)
  }

  /** Some digit of the width is read from past the last word exactly when all the digits
      together take more bits than the words have. */
  lemma PastEndExactly(d: nat, width: nat, w: nat)
    requires 0 < d <= w && width > 0
    ensures (exists j :: 0 <= j < DigitCount(width, d) && ReadsPastEnd(j, d, width, w))
            <==> DigitCount(width, d) * d > w * WordCount(width, w)
  {
    hide ReadsPastEnd;
    var count := DigitCount(width, d);
    if count * d > w * WordCount(width, w) {
      LastDigitPastEnd(d, width, w);
    }
    forall j | 0 <= j < count && ReadsPastEnd(j, d, width, w) ensures count * d > w * WordCount(width, w) {
      PastEndNeeds(j, d, width, w, count);
    }
  }

  lemma LastDigitPastEnd(d: nat, width: nat, w: nat)
    requires 0 < d <= w && width > 0 && DigitCount(width, d) * d > w * WordCount(width, w)
    ensures DigitCount(width, d) > 0 && ReadsPastEnd(DigitCount(width, d) - 1, d, width, w)
  {
    DigitCountExact(width, d);
    WidthFits(width, w);
    var n, count := WordCount(width, w), DigitCount(width, d);
    hide WordCount, DigitCount;
    assert count * d == d * count;
    PositiveFactor(d, count);
    PositiveFactor(w, n);
    Less(d, count);
    Less(w, n);
    var x := (count - 1) * d;
    assert x == d * (count - 1);
    Euclid(x, w, n - 1, x - w * (n - 1));
  }

  lemma PastEndNeeds(j: nat, d: nat, width: nat, w: nat, count: nat)
    requires w > 0 && ReadsPastEnd(j, d, width, w) && j < count
    ensures count * d > w * WordCount(width, w)
  {
    hide WordCount;
    var x, n := j * d, WordCount(width, w);
    assert x == w * (x / w) + x % w;
    Less(w, n);
    Grows(d, count, j + 1);
    assert d * (j + 1) == x + d && d * count == count * d;
  }

  /** Digits whose width divides the word's never straddle. */
  lemma DividesNeverPast(d: nat, k: nat, width: nat, w: nat)
    requires d > 0 && k > 0 && w == d * k && width > 0
    ensures DigitCount(width, d) * d <= w * WordCount(width, w)
  {
    DigitCountExact(width, d);
    WidthFits(width, w);
    var count, n := DigitCount(width, d), WordCount(width, w);
    hide DigitCount, WordCount;
    assert w * n == d * (k * n);
    WholeDigits(d, count, k * n, width);
  }

  lemma WholeDigits(d: nat, count: nat, m: nat, width: nat)
    requires d > 0 && d * count < width + d && width <= d * m
    ensures count * d <= d * m
  {
    assert d * (m + 1) == d * m + d;
    Digits.Below(d, count, m + 1);
    Grows(d, m, count);
    assert d * count == count * d;
  }

  /** The number with one more word above its own: what lies past the buffer, if it is read. */
  ghost function Extended(s: seq<nat>, beyond: nat, w: nat): nat
  {
    Value(s + [beyond], Pow2(w))
  }

  /** One digit, joined from two words where it straddles them.  Whether there is a next word is tested
      with an index that admits one past the last; `beyond` is what is then read. */
  method ExtractDigit(bits: Bits, j: nat, d: nat, beyond: nat) returns (digit: nat)
    requires bits.Valid() && 0 < d <= bits.w && j * d < bits.width && beyond < Pow2(bits.w)
    ensures digit == DigitAt(Extended(bits.buffer[..], beyond, bits.w), j, d)
  {
    hide Pow2, Value, Power, WordCount, WholeWords, DigitAt;
    ghost var s: seq<nat> := bits.buffer[..] + [beyond];
    var w := bits.w;
    var idx, bit := j * d / w, j * d % w;
    WordOf(j * d, bits.width, w);
    digit := Shr(bits.buffer[idx], Pow2(bit)) % Pow2(d);
    if bit + d > w && idx + 1 <= bits.buffer.Length {
      var consumed := w - bit;
      var next := (if idx + 1 < bits.buffer.Length then bits.buffer[idx + 1] else beyond) % Pow2(d - consumed);
      StraddlingDigit(s, j, d, w, idx, bit);
      digit := digit + next * Pow2(consumed);
    } else {
      PlainDigit(s, j, d, w, idx, bit);
    }
  }

  lemma WordOf(x: nat, width: nat, w: nat)
    requires w > 0 && x < width
    ensures x / w < WordCount(width, w)
  {
    WidthFits(width, w);
    var n := WordCount(width, w);
    hide WordCount;
    assert x == w * (x / w) + x % w;
    Digits.Below(w, x / w, n);
  }

  /** Bit `k` of the number is bit `bit` of word `idx`. */
  ghost predicate Located(k: nat, w: nat, idx: nat, bit: nat)
  {
    bit < w && k == w * idx + bit
  }

  /** What is left of the number from bit `k` on. */
  lemma FromBit(s: seq<nat>, idx: nat, bit: nat, w: nat, k: nat)
    requires Located(k, w, idx, bit) && bit < w && idx < |s| && InBase(s, Pow2(w))
    ensures Shr(Value(s, Pow2(w)), Pow2(k))
         == Joined(Shr(s[idx], Pow2(bit)), Value(s[idx + 1..], Pow2(w)), Pow2(w - bit))
    ensures Shr(s[idx], Pow2(bit)) < Pow2(w - bit)
  {
    hide Pow2, Value, Power, Shr;
    var b, t, u := Pow2(w), Pow2(bit), Pow2(w - bit);
    AroundWord(s, idx, b);
    Pow2Splits(w, bit);
    Pow2Splits(k, bit);
    PowerOfWord(w, idx);
    Commute(t, u);
    ShrIntoWords(Value(s, b), Value(s[..idx], b), s[idx], Value(s[idx + 1..], b), Power(b, idx), t, u, b,
                 Pow2(k));
  }

  lemma ShrIntoWords(v: nat, low: nat, x: nat, rest: nat, p: nat, t: nat, u: nat, b: nat, k: nat)
    requires low < p && t > 0 && u > 0 && x < b && b == t * u && k > 0 && k == p * t && v == low + p * (x + b * rest)
    ensures Shr(v, k) == Joined(Shr(x, t), rest, u) && Shr(x, t) < u
  {
    ShiftIntoWords(low, x, rest, p, t, u);
  }

  /** The words below one, the word, and the words above it. */
  lemma AroundWord(s: seq<nat>, idx: nat, b: nat)
    requires idx < |s| && InBase(s, b)
    ensures Value(s, b) == Value(s[..idx], b) + Power(b, idx) * (s[idx] + b * Value(s[idx + 1..], b))
    ensures Value(s[..idx], b) < Power(b, idx) && s[idx] < b
  {
    hide Value, Power;
    var low, high: seq<nat> := s[..idx], s[idx..];
    assert s == low + high && high == [s[idx]] + s[idx + 1..];
    ValueAppend(low, high, b);
    ValueCons(s[idx], s[idx + 1..], b);
    ValueBound(low, b);
  }

  lemma DigitIs(v: nat, j: nat, d: nat, k: nat, x: nat)
    requires k == j * d && x == Shr(v, Pow2(k))
    ensures DigitAt(v, j, d) == Mask(x, Pow2(d))
  {
  }

  lemma PlainBits(s: seq<nat>, d: nat, w: nat, idx: nat, bit: nat, k: nat)
    requires 0 < d && bit + d <= w && idx < |s| && InBase(s, Pow2(w)) && Located(k, w, idx, bit)
    ensures Mask(Shr(Value(s, Pow2(w)), Pow2(k)), Pow2(d)) == Mask(Shr(s[idx], Pow2(bit)), Pow2(d))
  {
    hide *;
    FromBit(s, idx, bit, w, k);
    WithinWord(Shr(Value(s, Pow2(w)), Pow2(k)), Shr(s[idx], Pow2(bit)), Value(s[idx + 1..], Pow2(w)), d, w - bit);
  }

  lemma PlainDigit(s: seq<nat>, j: nat, d: nat, w: nat, idx: nat, bit: nat)
    requires 0 < d && bit + d <= w && idx < |s| && InBase(s, Pow2(w)) && j * d == w * idx + bit
    ensures DigitAt(Value(s, Pow2(w)), j, d) == Shr(s[idx], Pow2(bit)) % Pow2(d)
  {
    hide Pow2, Value, DigitAt, Shr, InBase;
    NotNegative(j, d);
    var k: nat := j * d;
    PlainBits(s, d, w, idx, bit, k);
    DigitIs(Value(s, Pow2(w)), j, d, k, Shr(Value(s, Pow2(w)), Pow2(k)));
  }

  lemma ValueHead(s: seq<nat>, b: nat)
    requires s != []
    ensures Value(s, b) == s[0] + b * Value(s[1..], b)
  {
  }

  lemma StraddlingDigit(s: seq<nat>, j: nat, d: nat, w: nat, idx: nat, bit: nat)
    requires bit < w && 0 < d <= w < bit + d && idx + 1 < |s| && InBase(s, Pow2(w)) && j * d == w * idx + bit
    ensures DigitAt(Value(s, Pow2(w)), j, d)
         == Shr(s[idx], Pow2(bit)) % Pow2(d) + s[idx + 1] % Pow2(d - (w - bit)) * Pow2(w - bit)
  {
    hide Pow2, Value;
    NotNegative(j, d);
    FromBit(s, idx, bit, w, j * d);
    var c := w - bit;
    Pow2Splits(d, d - c);
    Pow2Splits(w, d - c);
    Pow2Less(c, d);
    var y, u, k, h := Shr(s[idx], Pow2(bit)), Pow2(c), Pow2(d - c), Pow2(w - (d - c));
    assert s[idx + 1..][1..] == s[idx + 2..];
    var rest := Value(s[idx + 2..], Pow2(w));
    ValueHead(s[idx + 1..], Pow2(w));
    assert Pow2(w) == k * h by { assert h * k == k * h; }
    DigitIs(Value(s, Pow2(w)), j, d, j * d, Joined(y, s[idx + 1] + Pow2(w) * rest, u));
    AcrossWords(y, s[idx + 1], rest, u, k, Pow2(w), h);
    Euclid(y, Pow2(d), 0, y);
  }

  /** How many digits are printed: as many as the highest bit needs, and one for zero. */
  function PrintedDigits(v: nat, d: nat): nat
    requires d > 0
  {
    DigitCount(if v == 0 then 1 else BitLength(v), d)
  }

  lemma CountMono(x: nat, y: nat, d: nat)
    requires d > 0 && x <= y
    ensures DigitCount(x, d) <= DigitCount(y, d)
  {
    DigitCountExact(x, d);
    DigitCountExact(y, d);
    var p, q := DigitCount(x, d), DigitCount(y, d);
    hide DigitCount;
    assert d * (q + 1) == d * q + d;
    Digits.Below(d, p, q + 1);
  }

  lemma LengthZero(v: nat)
    ensures BitLength(v) == 0 <==> v == 0
  {
  }

  lemma CountFits(v: nat, width: nat, d: nat)
    requires d > 0 && width > 0 && v < Pow2(width)
    ensures PrintedDigits(v, d) <= DigitCount(width, d)
  {
    LengthCompares(v, width);
    CountMono(if v == 0 then 1 else BitLength(v), width, d);
  }

  lemma DigitInWidth(j: nat, d: nat, width: nat)
    requires d > 0 && j < DigitCount(width, d)
    ensures j * d < width
  {
    DigitCountExact(width, d);
    var count := DigitCount(width, d);
    hide DigitCount;
    Grows(d, count, j + 1);
    assert d * (j + 1) == j * d + d;
  }

  /** Nothing is left above the printed digits, and something in the first of them. */
  lemma TopDigits(v: nat, d: nat)
    requires d > 0
    ensures var count := PrintedDigits(v, d);
      count > 0 && v / Pow2(count * d) == 0 && (v > 0 ==> DigitAt(v, count - 1, d) != 0)
  {
    var length, count := if v == 0 then 1 else BitLength(v), PrintedDigits(v, d);
    LengthZero(v);
    DigitCountExact(length, d);
    BitLengthExact(v);
    hide BitLength, DigitCount;
    PositiveFactor(d, count);
    NotNegative(count, d);
    assert d * count == count * d;
    if v > 0 { Pow2Mono(length, count * d); }
    Euclid(v, Pow2(count * d), 0, v);
    if v > 0 {
      Less(d, count);
      NotNegative(count - 1, d);
      assert (count - 1) * d == d * (count - 1);
      Pow2Mono((count - 1) * d, length - 1);
      DigitSteps(v, count - 1, d);
      var p := Pow2((count - 1) * d);
      hide Pow2;
      NotZero(v, p);
    }
  }

  lemma NotZero(v: nat, p: nat)
    requires 0 < p <= v
    ensures v / p > 0
  {
    assert v == p * (v / p) + v % p;
    PositiveFactor(p, v / p);
  }

  lemma PositiveFactor(p: nat, q: nat)
    requires p * q > 0
    ensures q > 0
  {
  }

  lemma AppendText(text: seq<nat>, x: nat, d: nat)
    ensures NumberOf(text + [x], d) == NumberOf(text, d) * Pow2(d) + x
  {
    assert (text + [x])[..|text|] == text;
  }

  lemma DigitSmall(v: nat, j: nat, d: nat)
    ensures DigitAt(v, j, d) < Pow2(d)
  {
  }

  lemma WholeNumber(v: nat, d: nat)
    ensures v / Pow2(0 * d) == v
  {
    assert 0 * d == 0 && Pow2(0) == 1;
    Euclid(v, 1, v, 0);
  }

  /** What printing gives: the digits of the number, without leading zeros. */
  ghost predicate Prints(v: nat, text: seq<nat>, d: nat)
    requires d > 0
  {
    && NumberOf(text, d) == v && AllDigits(text, d)
    && |text| == PrintedDigits(v, d) && (text != [] && v > 0 ==> text[0] != 0)
  }

  /** The printed digits take no more bits than the words have, or the rest of them is zero in what lies
      past the buffer. */
  ghost predicate Printable(v: nat, d: nat, w: nat, words: nat, beyond: nat)
    requires d > 0
  {
    var bits := PrintedDigits(v, d) * d;
    bits <= w * words || beyond % Pow2(bits - w * words) == 0
  }

  lemma ExtendedIs(s: seq<nat>, beyond: nat, w: nat)
    requires w > 0
    ensures Extended(s, beyond, w) == Value(s, Pow2(w)) + Pow2(w * |s|) * beyond
  {
    hide Pow2, Value, Power;
    var r := s + [beyond];
    assert r[..|s|] == s && r[..|s| + 1] == r;
    ValueNext(r, |s|, Pow2(w));
    PowerOfWord(w, |s|);
  }

  /** The low digits do not depend on what is above them. */
  lemma LowDigits(x: nat, count: nat, k: nat, d: nat)
    requires k < count
    ensures DigitAt(x % Pow2(count * d), k, d) == DigitAt(x, k, d)
  {
    hide Pow2;
    NotNegative(k, d);
    NotNegative(count - k - 1, d);
    NotNegative(count, d);
    SplitCount(count, k, d);
    LowPositions(x, k * d, d, (count - k - 1) * d, count * d);
  }

  lemma SplitCount(count: nat, k: nat, d: nat)
    requires k < count
    ensures count * d == k * d + (d + (count - k - 1) * d)
  {
  }

  lemma LowPositions(x: nat, low: nat, d: nat, rest: nat, all: nat)
    requires all == low + (d + rest)
    ensures x % Pow2(all) / Pow2(low) % Pow2(d) == x / Pow2(low) % Pow2(d)
  {
    Pow2Splits(all, d + rest);
    Pow2Splits(d + rest, rest);
    hide Pow2;
    MiddleDigits(x, Pow2(low), Pow2(d), Pow2(rest), Pow2(all));
  }

  lemma MiddleDigits(x: nat, p: nat, t: nat, h: nat, m: nat)
    requires p > 0 && t > 0 && h > 0 && m == p * (t * h)
    ensures m > 0 && x % m / p % t == x / p % t
  {
    PositiveProduct(p, t, h);
    var q, y := x / m, x % m;
    var a, b := y / p, y % p;
    var c, e := a / t, a % t;
    Parts(x, m);
    Parts(y, p);
    Parts(a, t);
    NotNegative(h, q);
    NotNegative(t, h * q);
    Regroup(p, t, h, q, a, b);
    Euclid(x, p, t * (h * q) + a, b);
    Regroup2(t, h * q, c, e);
    Euclid(t * (h * q) + a, t, h * q + c, e);
  }

  lemma PositiveProduct(p: nat, t: nat, h: nat)
    requires p > 0 && t > 0 && h > 0
    ensures p * (t * h) > 0
  {
  }

  /** A number is what it leaves and what is left. */
  lemma Parts(x: nat, m: nat)
    requires m > 0
    ensures x == m * (x / m) + x % m && x % m < m
  {
  }

  lemma Regroup(p: nat, t: nat, h: nat, q: nat, a: nat, b: nat)
    ensures p * (t * h) * q + (p * a + b) == p * (t * (h * q) + a) + b
  {
    assert p * (t * h) * q == p * ((t * h) * q);
    assert (t * h) * q == t * (h * q);
  }

  lemma Regroup2(t: nat, g: nat, c: nat, e: nat)
    ensures t * g + (t * c + e) == t * (g + c) + e
  {
  }

  /** The digits read are those of the number exactly when the number is printable. */
  lemma LowPart(v: nat, beyond: nat, n: nat, m: nat)
    requires v < Pow2(n) && v < Pow2(m)
    ensures (v + Pow2(n) * beyond) % Pow2(m) == v <==> m <= n || beyond % Pow2(m - n) == 0
    ensures m > n && beyond % Pow2(m - n) > 0 ==> (v + Pow2(n) * beyond) % Pow2(m) >= Pow2(n)
  {
    if m <= n {
      Pow2Splits(n, m);
      hide Pow2;
      LowWhole(v, beyond, Pow2(n - m), Pow2(m));
    } else {
      Pow2Splits(m, m - n);
      hide Pow2;
      LowSome(v, beyond, Pow2(n), Pow2(m - n), Pow2(m));
    }
  }

  lemma LowWhole(v: nat, beyond: nat, a: nat, b: nat)
    requires v < b
    ensures (v + (a * b) * beyond) % b == v
  {
    Reorder(a, b, beyond);
    NotNegative(a, beyond);
    Euclid(v + (a * b) * beyond, b, a * beyond, v);
  }

  lemma LowSome(v: nat, beyond: nat, p: nat, k: nat, m: nat)
    requires v < p && k > 0 && (m == p * k || m == k * p)
    ensures m > 0
    ensures (v + p * beyond) % m == v <==> beyond % k == 0
    ensures beyond % k > 0 ==> (v + p * beyond) % m >= p
  {
    var q, r := beyond / k, beyond % k;
    Parts(beyond, k);
    Spread(v, p, k, q, r);
    Euclid(v + p * beyond, p * k, q, v + p * r);
  }

  lemma Spread(v: nat, p: nat, k: nat, q: nat, r: nat)
    requires v < p && r < k
    ensures p * k > 0 && v + p * (k * q + r) == (p * k) * q + (v + p * r) && v + p * r < p * k
    ensures k * p == p * k && (r > 0 ==> p * r >= p) && (r == 0 ==> p * r == 0)
  {
    Distribute(p, k * q, r);
    Reassociate(p, k, q);
    Distribute(p, r, k - r);
    AtLeast(p, k - r);
    AtLeast(p, r);
    Commuted(p, k);
  }

  lemma Distribute(p: nat, x: nat, y: nat)
    ensures p * (x + y) == p * x + p * y
  {
  }

  lemma Reassociate(p: nat, k: nat, q: nat)
    ensures p * (k * q) == (p * k) * q
  {
  }

  lemma AtLeast(p: nat, x: nat)
    ensures x > 0 ==> p * x >= p
    ensures x == 0 ==> p * x == 0
  {
  }

  lemma Commuted(p: nat, k: nat)
    ensures p * k == k * p
  {
  }

  lemma Reorder(a: nat, b: nat, c: nat)
    ensures (a * b) * c == b * (a * c)
  {
  }

  /** Prints the digits from the highest; `beyond` is the word that lies past the buffer.  The text is that
      of the number exactly if the number is printable. */
  method Print(bits: Bits, d: nat, beyond: nat) returns (text: seq<nat>)
    requires bits.Valid() && 0 < d <= bits.w && beyond < Pow2(bits.w)
    ensures AllDigits(text, d) && |text| == PrintedDigits(bits.Number(), d)
    ensures NumberOf(text, d) == Extended(bits.buffer[..], beyond, bits.w) % Pow2(|text| * d)
    ensures Prints(bits.Number(), text, d) <==> Printable(bits.Number(), d, bits.w, bits.buffer.Length, beyond)
    ensures NumberOf(text, d) == bits.Number() <==> Printable(bits.Number(), d, bits.w, bits.buffer.Length, beyond)
  {
    hide Pow2, Value, Power, WholeWords, DigitCount, BitLength, NumberOf, DigitAt, Extended, Prints, Printable;
    CountWords(bits.width, bits.w);
    ghost var v, x := bits.Number(), Extended(bits.buffer[..], beyond, bits.w);
    bits.Bounded();
    var length := LastOne(bits);
    var count := DigitCount(if length == 0 then 1 else length, d);
    LengthZero(v);
    CountFits(v, bits.width, d);
    var parts: seq<nat> := [];
    for j := 0 to DigitCount(bits.width, d)
      invariant |parts| == j && forall k :: 0 <= k < j ==> parts[k] == DigitAt(x, k, d)
    {
      DigitInWidth(j, d, bits.width);
      var part := ExtractDigit(bits, j, d, beyond);
      parts := parts + [part];
    }
    text := FromTop(parts, count, d, x);
    PrintsExactly(bits.buffer[..], v, text, d, bits.w, beyond, x);
  }

  /** The digits are put together from the highest. */
  method FromTop(parts: seq<nat>, count: nat, d: nat, ghost x: nat) returns (text: seq<nat>)
    requires d > 0 && count <= |parts| && forall k :: 0 <= k < |parts| ==> parts[k] == DigitAt(x, k, d)
    ensures |text| == count && AllDigits(text, d) && NumberOf(text, d) == x % Pow2(count * d)
    ensures count > 0 ==> text[0] == DigitAt(x, count - 1, d)
  {
    hide Pow2, NumberOf, DigitAt;
    ghost var y := x % Pow2(count * d);
    text := [];
    var i := count;
    NothingAbove(x, count * d);
    EmptyNumber(d);
    while i > 0
      invariant 0 <= i <= count && |text| == count - i
      invariant AllDigits(text, d) && NumberOf(text, d) == y / Pow2(i * d)
      invariant i < count ==> text[0] == DigitAt(x, count - 1, d)
    {
      i := i - 1;
      LowDigits(x, count, i, d);
      DigitSteps(y, i, d);
      AppendText(text, parts[i], d);
      DigitSmall(x, i, d);
      text := text + [parts[i]];
    }
    WholeNumber(y, d);
  }

  lemma NothingAbove(x: nat, n: nat)
    ensures (x % Pow2(n)) / Pow2(n) == 0
  {
    var p := Pow2(n);
    hide Pow2;
    Euclid(x % p, p, 0, x % p);
  }

  lemma EmptyNumber(d: nat)
    ensures NumberOf([], d) == 0
  {
  }

  lemma PrintsExactly(s: seq<nat>, v: nat, text: seq<nat>, d: nat, w: nat, beyond: nat, x: nat)
    requires w > 0 && d > 0 && s != [] && InBase(s, Pow2(w)) && v == Value(s, Pow2(w)) && x == Extended(s, beyond, w)
    requires AllDigits(text, d) && |text| == PrintedDigits(v, d) && NumberOf(text, d) == x % Pow2(|text| * d)
    requires |text| > 0 ==> text[0] == DigitAt(x, |text| - 1, d)
    ensures NumberOf(text, d) == v <==> Printable(v, d, w, |s|, beyond)
    ensures Prints(v, text, d) <==> Printable(v, d, w, |s|, beyond)
  {
    hide Pow2, Value, Power, NumberOf, DigitAt, Extended, PrintedDigits;
    var count := |text|;
    ExtendedIs(s, beyond, w);
    ValueBound(s, Pow2(w));
    PowerOfWord(w, |s|);
    TopDigits(v, d);
    BelowTop(v, count * d);
    LowPart(v, beyond, w * |s|, count * d);
    LowDigits(x, count, count - 1, d);
  }

  lemma BelowTop(v: nat, n: nat)
    requires v / Pow2(n) == 0
    ensures v < Pow2(n)
  {
    var p := Pow2(n);
    hide Pow2;
    assert v == p * (v / p) + v % p;
  }

  /** Where no digit runs past the last word, every number is printable. */
  lemma PrintableWithin(v: nat, d: nat, width: nat, w: nat, beyond: nat)
    requires d > 0 && w > 0 && width > 0 && v < Pow2(width)
    requires DigitCount(width, d) * d <= w * WordCount(width, w)
    ensures Printable(v, d, w, WordCount(width, w), beyond)
  {
    CountFits(v, width, d);
    hide WordCount, DigitCount, PrintedDigits, Pow2;
    NoMore(PrintedDigits(v, d), DigitCount(width, d), d);
  }

  lemma NoMore(p: nat, q: nat, d: nat)
    requires p <= q
    ensures p * d <= q * d
  {
    assert q * d == p * d + (q - p) * d;
  }

  /** In base 8 a number of 8 bits takes three digits of 3 bits: the last is read from past the only
      word, and 128 comes out wrong if the word found there is odd. */
  lemma PastEndHappens()
    ensures ReadsPastEnd(2, 3, 8, 8) && PrintedDigits(128, 3) == 3 && !Printable(128, 3, 8, 1, 1)
  {
    assert 2 * 3 % 8 == 6 && 2 * 3 / 8 == 0;
    OneTwentyEight();
    assert Pow2(1) == 2;
  }

  lemma OneTwentyEight()
    ensures BitLength(128) == 8
  {
    assert Pow2(7) == 128 && Pow2(8) == 256;
    LengthCompares(128, 7);
    LengthCompares(128, 8);
  }

  /** What is printed can be read: the number, or one that is too large. */
  lemma PrintedReadable(s: seq<nat>, v: nat, text: seq<nat>, d: nat, w: nat, width: nat, beyond: nat)
    requires 0 < d <= w && width > 0 && |s| == WordCount(width, w) && InBase(s, Pow2(w))
    requires v == Value(s, Pow2(w)) && v < Pow2(width) && AllDigits(text, d) && |text| == PrintedDigits(v, d)
    requires NumberOf(text, d) == Extended(s, beyond, w) % Pow2(|text| * d)
    ensures Readable(text, d, width)
    ensures NumberOf(text, d) >= Pow2(width) <==> !Printable(v, d, w, |s|, beyond)
    ensures Printable(v, d, w, |s|, beyond) ==> NumberOf(text, d) == v
  {
    hide Pow2, Value, Power, NumberOf, Extended, PrintedDigits, WordCount, SmallDigits, Printable;
    WidthFits(width, w);
    Pow2Mono(width, w * |s|);
    PrintedValue(s, v, |text|, d, w, beyond);
    if Printable(v, d, w, |s|, beyond) {
      DigitsAreSmall(text, d, width);
    } else {
      PastEndNarrow(v, d, width, w, |s|, |text|, beyond);
      DigitsAreSmall(text, d, width);
    }
  }

  lemma PrintedValue(s: seq<nat>, v: nat, count: nat, d: nat, w: nat, beyond: nat)
    requires 0 < d && w > 0 && InBase(s, Pow2(w)) && v == Value(s, Pow2(w)) && count == PrintedDigits(v, d)
    ensures var y := Extended(s, beyond, w) % Pow2(count * d);
      if Printable(v, d, w, |s|, beyond) then y == v else y >= Pow2(w * |s|)
  {
    hide Pow2, Value, Power, Extended, PrintedDigits;
    ExtendedIs(s, beyond, w);
    ValueBound(s, Pow2(w));
    PowerOfWord(w, |s|);
    TopDigits(v, d);
    BelowTop(v, count * d);
    LowPart(v, beyond, w * |s|, count * d);
  }

  lemma PastEndNarrow(v: nat, d: nat, width: nat, w: nat, words: nat, count: nat, beyond: nat)
    requires 0 < d <= w && width > 0 && v < Pow2(width) && count == PrintedDigits(v, d) && words == WordCount(width, w)
    requires !Printable(v, d, w, words, beyond)
    ensures d <= width
  {
    CountWords(width, w);
    hide Pow2, PrintedDigits, WordCount;
    NarrowDigits(v, d, width, w, words, count);
  }

  /** Digits that run past the last word have no more bits than the number. */
  lemma NarrowDigits(v: nat, d: nat, width: nat, w: nat, words: nat, count: nat)
    requires 0 < d <= w && width > 0 && v < Pow2(width) && count == PrintedDigits(v, d) && words > 0
    requires count * d > w * words
    ensures d <= width
  {
    CountFits(v, width, d);
    hide PrintedDigits, Pow2;
    OneDigit(d, width);
    Fewer(count, d, w, words);
  }

  /** A digit with more bits than the number is enough. */
  lemma OneDigit(d: nat, width: nat)
    requires d > 0 && width > 0
    ensures d > width ==> DigitCount(width, d) == 1
  {
    if d > width { Euclid(width + d - 1, d, 1, width - 1); }
  }

  lemma Fewer(count: nat, d: nat, w: nat, words: nat)
    requires d <= w && words > 0
    ensures count <= 1 ==> count * d <= w * words
  {
    assert w * words == w * (words - 1) + w;
  }

  /** Printing and parsing back gives the same number if that is printable, and an overflow if not. */
  method RoundTrip(bits: Bits, d: nat, beyond: nat) returns (outcome: Outcome, again: Bits)
    requires bits.Valid() && 0 < d <= bits.w && beyond < Pow2(bits.w)
    ensures again.Valid() && fresh(again) && again.width == bits.width
    ensures outcome == if Printable(bits.Number(), d, bits.w, bits.buffer.Length, beyond) then Parsed else Overflow
    ensures outcome == Parsed ==> again.Number() == bits.Number()
  {
    hide Pow2, Value, Power, WordCount, DigitCount, NumberOf, PrintedDigits, Extended, Printable, Prints;
    bits.Bounded();
    ghost var v := bits.Number();
    var text := Print(bits, d, beyond);
    PrintedReadable(bits.buffer[..], v, text, d, bits.w, bits.width, beyond);
    outcome, again := Parse(text, d, bits.width, bits.w, bits.native);
    again.Bounded();
  }
}
