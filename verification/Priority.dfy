/** The treap priority of a block: a splitmix32-style finalizer of its page offset.
    Words are naturals below 2^32 and multiplication wraps. */
module Priority {
  import opened Bitwise

  const WORD: nat := 0x1_0000_0000

  function Fold(x: nat, s: nat): nat
  {
    Xor(x, ShiftRight(x, s))
  }

  function Scale(x: nat, c: nat): nat
  {
    (x * c) % WORD
  }

  function Round(x: nat, s: nat, c: nat): (r: nat)
    ensures r < WORD
  {
    Scale(Fold(x, s), c)
  }

  function Mix(x: nat, s: nat, c: nat, t: nat, d: nat): nat
  {
    Fold(Round(Round(x, s, c), t, d), s)
  }

  function Prio(offset: nat): nat
  {
    Mix(offset, 16, 0x7feb352d, 15, 0x846ca68b)
  }

  lemma Pow2Word()
    ensures Pow2(32) == WORD
  {
    assert Pow2(8) == 0x100;
    assert Pow2(16) == 0x1_0000;
    assert Pow2(24) == 0x100_0000;
  }

  lemma FoldWord(x: nat, s: nat)
    requires x < WORD
    ensures Fold(x, s) < WORD
  {
    Pow2Word();
    FoldBound(x, s, 32);
  }

  /** Scaling by a number and then by its inverse modulo 2^32 restores the word. */
  lemma ScaleInverse(x: nat, c: nat, inverse: nat)
    requires x < WORD && (c * inverse) % WORD == 1
    ensures Scale(Scale(x, c), inverse) == x
  {
    var q, r, k := x * c / WORD, Scale(x, c), c * inverse / WORD;
    Cancels(x, c, inverse, q, r, k, WORD);
    var d := x * k - q * inverse;
    LowWord(r * inverse, d, x);
  }

  lemma Cancels(x: int, c: int, inverse: int, q: int, r: int, k: int, w: int)
    requires x * c == w * q + r && c * inverse == w * k + 1
    ensures r * inverse == w * (x * k - q * inverse) + x
  {
    calc {
      r * inverse;
      { assert r == x * c - w * q; Distributes(x * c, w * q, inverse); }
      x * c * inverse - w * q * inverse;
      { Reassociates(x, c, inverse); Reassociates(w, q, inverse); }
      x * (w * k + 1) - w * (q * inverse);
      { Distributes(w * k, -1, x); Reassociates(w, k, x); }
      w * (x * k) + x - w * (q * inverse);
      { Distributes(x * k, q * inverse, w); }
      w * (x * k - q * inverse) + x;
    }
  }

  lemma Reassociates(x: int, y: int, z: int)
    ensures x * y * z == x * (y * z) && y * z == z * y
  {
  }

  lemma Distributes(x: int, y: int, z: int)
    ensures (x - y) * z == x * z - y * z && z * (x - y) == z * x - z * y
  {
  }

  lemma LowWord(n: nat, d: int, x: nat)
    requires n == WORD * d + x && x < WORD
    ensures n % WORD == x
  {
  }

  /** One fold-and-scale round loses nothing when the multiplier is invertible. */
  lemma RoundInjective(x: nat, y: nat, s: nat, c: nat, inverse: nat)
    requires x < WORD && y < WORD && s > 0 && (c * inverse) % WORD == 1
    requires Round(x, s, c) == Round(y, s, c)
    ensures x == y
  {
    FoldWord(x, s);
    FoldWord(y, s);
    ScaleInverse(Fold(x, s), c, inverse);
    ScaleInverse(Fold(y, s), c, inverse);
    FoldInjective(x, y, s);
  }

  /** Undoes a round: scales by the inverse multiplier, then unfolds. */
  function Unround(r: nat, s: nat, inverse: nat): nat
    requires s > 0
  {
    Unfold(Scale(r, inverse), s)
  }

  lemma RoundUndone(x: nat, s: nat, c: nat, inverse: nat)
    requires x < WORD && s > 0 && (c * inverse) % WORD == 1
    ensures Unround(Round(x, s, c), s, inverse) == x
  {
    FoldWord(x, s);
    ScaleInverse(Fold(x, s), c, inverse);
    UnfoldFold(x, s);
  }

  lemma RoundRedone(r: nat, s: nat, c: nat, inverse: nat)
    requires r < WORD && s > 0 && (c * inverse) % WORD == 1
    ensures Unround(r, s, inverse) < WORD && Round(Unround(r, s, inverse), s, c) == r
  {
    var f := Scale(r, inverse);
    Pow2Word();
    UnfoldBound(f, s, 32);
    FoldUnfold(f, s);
    ScaleInverse(r, inverse, c);
  }

  /** The offset with priority `p`: the two rounds undone in reverse, with the inverses of the two
      multipliers modulo 2^32. */
  function OffsetOf(p: nat): nat
  {
    Unround(Unround(Unfold(p, 16), 15, 0x43021123), 16, 0x1d69e2a5)
  }

  /** Priorities are the 32-bit offsets in another order: every word is the priority of exactly the
      offset that the inverse rounds give. */
  lemma PrioInverse(x: nat)
    requires x < WORD
    ensures Prio(x) < WORD && OffsetOf(Prio(x)) == x
    ensures OffsetOf(x) < WORD && Prio(OffsetOf(x)) == x
  {
    hide Round, Unround;
    PrioUndone(x);
    PrioRedone(x);
  }

  lemma PrioUndone(x: nat)
    requires x < WORD
    ensures Prio(x) < WORD && OffsetOf(Prio(x)) == x
  {
    hide Round, Unround;
    var a := Round(x, 16, 0x7feb352d);
    var b := Round(a, 15, 0x846ca68b);
    RoundUndone(x, 16, 0x7feb352d, 0x1d69e2a5);
    RoundUndone(a, 15, 0x846ca68b, 0x43021123);
    UnfoldFold(b, 16);
    FoldWord(b, 16);
  }

  lemma PrioRedone(p: nat)
    requires p < WORD
    ensures OffsetOf(p) < WORD && Prio(OffsetOf(p)) == p
  {
    hide Round, Unround;
    var b := Unfold(p, 16);
    Pow2Word();
    UnfoldBound(p, 16, 32);
    var a := Unround(b, 15, 0x43021123);
    RoundRedone(b, 15, 0x846ca68b, 0x43021123);
    RoundRedone(a, 16, 0x7feb352d, 0x1d69e2a5);
    FoldUnfold(p, 16);
  }

  lemma MixInjective(a: nat, b: nat, s: nat, c: nat, t: nat, d: nat, c': nat, d': nat)
    requires a < WORD && b < WORD && s > 0 && t > 0
    requires (c * c') % WORD == 1 && (d * d') % WORD == 1
    ensures Mix(a, s, c, t, d) == Mix(b, s, c, t, d) ==> a == b
  {
    if Mix(a, s, c, t, d) == Mix(b, s, c, t, d) {
      FoldInjective(Round(Round(a, s, c), t, d), Round(Round(b, s, c), t, d), s);
      RoundInjective(Round(a, s, c), Round(b, s, c), t, d, d');
      RoundInjective(a, b, s, c, c');
    }
  }

  /** Distinct 32-bit offsets have distinct priorities. */
  lemma PrioInjective(a: nat, b: nat)
    requires a < WORD && b < WORD && a != b
    ensures Prio(a) != Prio(b)
  {
    hide Mix;
    MixInjective(a, b, 16, 0x7feb352d, 15, 0x846ca68b, 0x1d69e2a5, 0x43021123);
  }
}
