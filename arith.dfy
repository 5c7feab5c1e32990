/** Powers of two and the facts about Euclidean division that bit-field slicing needs. */
module Arith {

  /** 2 to the power k. */
  function Pow2(k: nat): (r: nat)
    ensures r >= 1
  {
    if k == 0 then 1 else 2 * Pow2(k - 1)
  }

  lemma {:induction false} Pow2Add(a: nat, b: nat)
    ensures Pow2(a + b) == Pow2(a) * Pow2(b)
  {
    if a > 0 {
      Pow2Add(a - 1, b);
      assert Pow2(a + b) == 2 * Pow2(a - 1 + b);
    }
  }

  lemma {:induction false} Pow2Monotone(a: nat, b: nat)
    requires a < b
    ensures Pow2(a) < Pow2(b)
  {
    if a + 1 < b {
      Pow2Monotone(a, b - 1);
    }
  }

  lemma MulLe(x: int, y: int, d: nat)
    requires x <= y
    ensures x * d <= y * d
  {
    assert y * d - x * d == (y - x) * d;
  }

  /** A quotient and remainder with 0 <= r < d are the Euclidean ones. */
  lemma DivModUnique(n: int, d: int, q: int, r: int)
    requires d > 0 && 0 <= r < d && n == q * d + r
    ensures n / d == q && n % d == r
  {
    var q', r' := n / d, n % d;
    assert n == q' * d + r';
    assert (q - q') * d == r' - r;
    if q > q' {
      MulLe(1, q - q', d);
    } else if q < q' {
      MulLe(1, q' - q, d);
    }
  }

  /** n < d * c bounds the quotient of n by d by c. */
  lemma DivBound(n: nat, d: nat, c: nat)
    requires d > 0 && n < d * c
    ensures n / d < c
  {
    if n / d >= c {
      MulLe(c, n / d, d);
    }
  }

  /** Slicing n into fields of sizes P, Q, R and concatenating them returns n. */
  lemma SliceConcat(n: nat, P: nat, Q: nat, R: nat)
    requires P > 0 && Q > 0 && R > 0 && n < P * (Q * R)
    ensures n % P + P * (n / P % Q + Q * (n / P / Q % R)) == n
  {
    var x := n / P;
    DivBound(n, P, Q * R);
    DivBound(x, Q, R);
    DivModUnique(x / Q, R, 0, x / Q);
    assert x / Q % R == x / Q;
    assert x % Q + Q * (x / Q) == x;
  }

  /** Concatenated in-range fields slice back into themselves. */
  lemma ConcatSlice(o: nat, l: nat, t: nat, P: nat, Q: nat, R: nat)
    requires o < P && l < Q && t < R
    ensures (o + P * (l + Q * t)) % P == o
    ensures (o + P * (l + Q * t)) / P % Q == l
    ensures (o + P * (l + Q * t)) / P / Q % R == t
  {
    DivModUnique(o + P * (l + Q * t), P, l + Q * t, o);
    DivModUnique(l + Q * t, Q, t, l);
    DivModUnique(t, R, 0, t);
  }

  /** The low field and the next field together are the remainder by the product. */
  lemma TwoFields(x: nat, Q: nat, R: nat)
    requires Q > 0 && R > 0
    ensures x % Q + Q * (x / Q % R) == x % (Q * R)
  {
    var t := x / Q % R;
    assert x == Q * (x / Q) + x % Q;
    assert x / Q == R * (x / Q / R) + t;
    assert x == (x / Q / R) * (Q * R) + (x % Q + Q * t);
    assert x % Q + Q * t < Q * R by { MulLe(t, R - 1, Q); }
    DivModUnique(x, Q * R, x / Q / R, x % Q + Q * t);
  }

  /** Reducing modulo a multiple of a, then modulo a, is reducing modulo a. */
  lemma ModOfMod(x: nat, a: nat, b: nat)
    requires a > 0 && b > 0
    ensures x % (a * b) % a == x % a
  {
    var r := x % (a * b);
    assert x == (x / (a * b)) * (a * b) + r;
    assert r == (r / a) * a + r % a;
    assert x == ((x / (a * b)) * b + r / a) * a + r % a;
    DivModUnique(x, a, (x / (a * b)) * b + r / a, r % a);
  }
}
