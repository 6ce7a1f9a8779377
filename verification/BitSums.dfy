/** Adding and subtracting little-endian words in place, with the carry kept in a flag. */
module BitSums {
  import opened Words

  /** Word arithmetic wraps around. */
  function Wrap(x: int, b: nat): nat
    requires b > 0
  {
    x % b
  }

  function Bit(c: bool): nat
  {
    if c then 1 else 0
  }

  lemma WrapOnce(x: int, b: nat)
    requires b > 0 && 0 - b <= x < 2 * b
    ensures Wrap(x, b) == if x < 0 then x + b else if x < b then x else x - b
  {
  }

  /** Two wrapping additions detect the carry of all three. */
  lemma AddWord(x: nat, y: nat, c: bool, b: nat)
    requires b > 1 && x < b && y < b
    ensures var a := Wrap(x + Bit(c), b); var r := Wrap(a + y, b);
      r < b && r + b * Bit(a < x || r < a) == x + y + Bit(c)
  {
    WrapOnce(x + Bit(c), b);
    WrapOnce(Wrap(x + Bit(c), b) + y, b);
  }

  lemma SubWord(x: nat, y: nat, c: bool, b: nat)
    requires b > 1 && x < b && y < b
    ensures var a := Wrap(x - Bit(c), b); var r := Wrap(a - y, b);
      r < b && r + y + Bit(c) == x + b * Bit(a > x || r > a)
  {
    WrapOnce(x - Bit(c), b);
    WrapOnce(Wrap(x - Bit(c), b) - y, b);
  }

  /** The words written so far, the carry, and what they sum. */
  ghost predicate Summed(x: seq<nat>, y: seq<nat>, out: seq<nat>, i: nat, c: bool, b: nat)
  {
    && i <= |x| && i <= |y| && i <= |out| && InBase(out[..i], b)
    && Value(out[..i], b) + Power(b, i) * Bit(c) == Value(x[..i], b) + Value(y[..i], b)
  }

  lemma SumNext(x: seq<nat>, y: seq<nat>, out: seq<nat>, i: nat, c: bool, r: nat, c': bool, b: nat)
    requires Summed(x, y, out, i, c, b) && i < |x| && i < |y| && i < |out| && r < b
    requires r + b * Bit(c') == x[i] + y[i] + Bit(c)
    ensures Summed(x, y, out[i := r], i + 1, c', b)
  {
    var out' := out[i := r];
    assert out'[..i] == out[..i] && out'[..i + 1] == out[..i] + [r];
    ValueNext(x, i, b);
    ValueNext(y, i, b);
    ValueNext(out', i, b);
    Step(Power(b, i), r, b, Bit(c'), x[i], y[i], Bit(c));
  }

  lemma Step(p: nat, r: nat, b: nat, c': nat, x: nat, y: nat, c: nat)
    requires r + b * c' == x + y + c
    ensures p * r + (b * p) * c' == p * x + p * y + p * c
  {
    assert p * (r + b * c') == p * (x + y + c);
    assert p * (b * c') == (b * p) * c';
  }

  lemma StartSummed(x: seq<nat>, y: seq<nat>, out: seq<nat>, b: nat)
    ensures Summed(x, y, out, 0, false, b)
  {
    assert x[..0] == [] && y[..0] == [] && out[..0] == [];
  }

  /** Adds the first `n` words; `out` may be either operand. */
  method AddWords(x: array<nat>, y: array<nat>, out: array<nat>, n: nat, b: nat) returns (carry: bool)
    requires b > 1 && n <= x.Length && n <= y.Length && n <= out.Length
    requires InBase(x[..], b) && InBase(y[..], b)
    modifies out
    ensures out[n..] == old(out[n..])
    ensures Summed(old(x[..]), old(y[..]), out[..], n, carry, b)
  {
    ghost var xs: seq<nat>, ys: seq<nat> := x[..], y[..];
    carry := false;
    StartSummed(xs, ys, out[..], b);
    hide Summed, Wrap, Value, Power;
    for i := 0 to n
      invariant x[i..] == xs[i..] && y[i..] == ys[i..] && out[n..] == old(out[n..])
      invariant Summed(xs, ys, out[..], i, carry, b)
    {
      assert x[i] == xs[i] && y[i] == ys[i];
      ghost var before: seq<nat> := out[..];
      AddWord(x[i], y[i], carry, b);
      var a := Wrap(x[i] + Bit(carry), b);
      var c := a < x[i];
      var r := Wrap(a + y[i], b);
      SumNext(xs, ys, before, i, carry, r, c || r < a, b);
      carry := c || r < a;
      assert x[i + 1..] == x[i..][1..] == xs[i + 1..] && y[i + 1..] == y[i..][1..] == ys[i + 1..];
      out[i] := r;
      assert out[..] == before[i := r];
    }
  }

  ghost predicate Subtracted(x: seq<nat>, y: seq<nat>, out: seq<nat>, i: nat, c: bool, b: nat)
  {
    && i <= |x| && i <= |y| && i <= |out| && InBase(out[..i], b)
    && Value(out[..i], b) + Value(y[..i], b) == Value(x[..i], b) + Power(b, i) * Bit(c)
  }

  lemma StartSubtracted(x: seq<nat>, y: seq<nat>, out: seq<nat>, b: nat)
    ensures Subtracted(x, y, out, 0, false, b)
  {
    assert x[..0] == [] && y[..0] == [] && out[..0] == [];
  }

  /** Subtraction: `out` and the subtrahend sum to the minuend, which may have borrowed. */
  method SubWords(x: array<nat>, y: array<nat>, out: array<nat>, n: nat, b: nat) returns (borrow: bool)
    requires b > 1 && n <= x.Length && n <= y.Length && n <= out.Length
    requires InBase(x[..], b) && InBase(y[..], b)
    modifies out
    ensures out[n..] == old(out[n..])
    ensures Subtracted(old(x[..]), old(y[..]), out[..], n, borrow, b)
  {
    ghost var xs: seq<nat>, ys: seq<nat> := x[..], y[..];
    borrow := false;
    StartSubtracted(xs, ys, out[..], b);
    hide Subtracted, Wrap, Value, Power;
    for i := 0 to n
      invariant x[i..] == xs[i..] && y[i..] == ys[i..] && out[n..] == old(out[n..])
      invariant Subtracted(xs, ys, out[..], i, borrow, b)
    {
      assert x[i] == xs[i] && y[i] == ys[i];
      ghost var before: seq<nat> := out[..];
      SubWord(x[i], y[i], borrow, b);
      var a: int := Wrap(x[i] - Bit(borrow), b);
      var c := a > x[i];
      var r := Wrap(a - y[i], b);
      DifferenceNext(xs, ys, before, i, borrow, r, c || r > a, b);
      borrow := c || r > a;
      assert x[i + 1..] == x[i..][1..] == xs[i + 1..] && y[i + 1..] == y[i..][1..] == ys[i + 1..];
      out[i] := r;
      assert out[..] == before[i := r];
    }
  }

  lemma DifferenceNext(x: seq<nat>, y: seq<nat>, out: seq<nat>, i: nat, c: bool, r: nat, c': bool, b: nat)
    requires Subtracted(x, y, out, i, c, b) && i < |x| && i < |y| && i < |out| && r < b
    requires r + y[i] + Bit(c) == x[i] + b * Bit(c')
    ensures Subtracted(x, y, out[i := r], i + 1, c', b)
  {
    var out' := out[i := r];
    assert out'[..i] == out[..i] && out'[..i + 1] == out[..i] + [r];
    ValueNext(x, i, b);
    ValueNext(y, i, b);
    ValueNext(out', i, b);
    Step(Power(b, i), x[i], b, Bit(c'), r, y[i], Bit(c));
  }
}
