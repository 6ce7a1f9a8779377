/** Natural numbers as little-endian sequences of words: digits in some base `b`. */
module Words {
  import opened Bitwise

  function Power(b: nat, k: nat): (p: nat)
    ensures b > 0 ==> p > 0
  {
    if k == 0 then 1 else b * Power(b, k - 1)
  }

  function Value(s: seq<nat>, b: nat): nat
  {
    if s == [] then 0 else s[0] + b * Value(s[1..], b)
  }

  ghost predicate InBase(s: seq<nat>, b: nat)
  {
    forall i :: 0 <= i < |s| ==> s[i] < b
  }

  lemma {:induction false} PowerAdds(b: nat, j: nat, k: nat)
    ensures Power(b, j + k) == Power(b, j) * Power(b, k)
  {
    if j > 0 {
      PowerAdds(b, j - 1, k);
      Regrouped(b, Power(b, j - 1), Power(b, k));
    }
  }

  lemma Regrouped(x: nat, y: nat, z: nat)
    ensures x * (y * z) == x * y * z
  {
  }

  lemma BelowNext(x: nat, v: nat, p: nat, b: nat)
    requires x < b && v < p
    ensures x + b * v < b * p
  {
    assert b * (v + 1) <= b * p;
  }

  lemma Distribute(x: nat, v: nat, p: nat, u: nat, b: nat)
    ensures x + b * (v + p * u) == (x + b * v) + (b * p) * u
  {
  }

  lemma {:induction false} ValueBound(s: seq<nat>, b: nat)
    requires InBase(s, b)
    ensures Value(s, b) < Power(b, |s|)
  {
    if s != [] {
      ValueBound(s[1..], b);
      BelowNext(s[0], Value(s[1..], b), Power(b, |s| - 1), b);
    }
  }

  lemma {:induction false} ValueAppend(s: seq<nat>, t: seq<nat>, b: nat)
    ensures Value(s + t, b) == Value(s, b) + Power(b, |s|) * Value(t, b)
  {
    if s == [] {
      assert s + t == t;
    } else {
      assert (s + t)[1..] == s[1..] + t && (s + t)[0] == s[0];
      ValueAppend(s[1..], t, b);
      Distribute(s[0], Value(s[1..], b), Power(b, |s| - 1), Value(t, b), b);
    }
  }

  lemma ValueOne(x: nat, b: nat)
    ensures Value([x], b) == x
  {
    assert [x][1..] == [];
  }

  /** The value of one word more. */
  lemma ValueNext(s: seq<nat>, i: nat, b: nat)
    requires i < |s|
    ensures Value(s[..i + 1], b) == Value(s[..i], b) + Power(b, i) * s[i]
  {
    assert s[..i + 1] == s[..i] + [s[i]];
    ValueAppend(s[..i], [s[i]], b);
    ValueOne(s[i], b);
  }

  lemma {:induction false} ValueZeros(k: nat, b: nat)
    ensures Value(seq(k, _ => 0), b) == 0
  {
    var z: seq<nat> := seq(k, _ => 0);
    if k > 0 {
      assert z[1..] == seq(k - 1, _ => 0);
      ValueZeros(k - 1, b);
    }
  }

  /** Words determine their number, and the number its words. */
  lemma {:induction false} ValueUnique(s: seq<nat>, t: seq<nat>, b: nat)
    requires |s| == |t| && InBase(s, b) && InBase(t, b) && Value(s, b) == Value(t, b)
    ensures s == t
  {
    if s != [] {
      SameDigit(s[0], Value(s[1..], b), t[0], Value(t[1..], b), b);
      ValueUnique(s[1..], t[1..], b);
      assert s == [s[0]] + s[1..] && t == [t[0]] + t[1..];
    }
  }

  lemma SameDigit(x: nat, p: nat, y: nat, q: nat, b: nat)
    requires x < b && y < b && x + b * p == y + b * q
    ensures x == y && p == q
  {
    assert b * (p - q) == y - x;
    Whole(b, p - q);
    Whole(b, q - p);
  }

  lemma Whole(m: nat, k: int)
    requires m > 0
    ensures k >= 1 ==> m * k >= m
    ensures k <= -1 ==> m * k <= 0 - m
  {
  }

  lemma Euclid(n: nat, m: nat, d: nat, r: nat)
    requires m > 0 && n == m * d + r && r < m
    ensures n / m == d && n % m == r
  {
    var e, t := n / m, n % m;
    assert m * (d - e) == t - r;
    Whole(m, d - e);
    Whole(m, e - d);
  }

  lemma Recompose(n: nat, m: nat)
    requires m > 0
    ensures n == m * (n / m) + n % m && n == (n / m) * m + n % m && n % m < m
  {
  }

  lemma Commute(a: nat, b: nat)
    ensures a * b == b * a
  {
  }

  lemma NotNegative(a: nat, b: nat)
    ensures a * b >= 0
  {
  }

  lemma ValueCons(x: nat, s: seq<nat>, b: nat)
    ensures Value([x] + s, b) == x + b * Value(s, b)
  {
    assert ([x] + s)[1..] == s;
  }

  /** A number of words of `w` bits each. */
  lemma {:induction false} PowerOfWord(w: nat, n: nat)
    ensures Power(Pow2(w), n) == Pow2(w * n)
  {
    if n > 0 {
      PowerOfWord(w, n - 1);
      assert w * n == w + w * (n - 1);
      Pow2Splits(w * n, w);
    }
  }
}
