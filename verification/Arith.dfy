/** Multiplication and division facts that the other modules use one at a time. */
module Arith {
  lemma MulLe(x: int, y: int, m: nat)
    requires x <= y
    ensures x * m <= y * m
  {
  }

  lemma MulAddOne(x: int, m: int)
    ensures (x + 1) * m == x * m + m
  {
  }

  /** Quotient and remainder are determined by their defining equation. */
  lemma DivModUnique(a: int, m: int, h: int, r: int)
    requires 0 <= r < m && a == h * m + r
    ensures a / m == h && a % m == r
  {
    var q := a / m;
    assert a == q * m + a % m;
    if q < h {
      MulLe(q + 1, h, m);
      MulAddOne(q, m);
    } else if h < q {
      MulLe(h + 1, q, m);
      MulAddOne(h, m);
    }
  }

  /** A remainder by `b * p` splits into the next digit in base `b` and the remainder by `p`. */
  lemma SplitModulus(a: nat, b: nat, p: nat)
    requires p > 0 && b > 0
    ensures b * p > 0
    ensures a % (b * p) == ((a / p) % b) * p + a % p
  {
    var q, r := a / p, a % p;
    var h, d := q / b, q % b;
    assert a == q * p + r;
    Regroup(h, b, d, p);
    MulLe(d + 1, b, p);
    MulAddOne(d, p);
    DivModUnique(a, b * p, h, d * p + r);
  }

  lemma Regroup(h: int, b: int, d: int, p: int)
    ensures (h * b + d) * p == h * (b * p) + d * p
  {
  }

  function Pow2(n: nat): (r: nat)
    ensures r > 0
  {
    if n == 0 then 1 else 2 * Pow2(n - 1)
  }

  lemma {:induction false} Pow2Monotone(m: nat, n: nat)
    requires m <= n
    ensures Pow2(m) <= Pow2(n)
    decreases n
  {
    if m < n { Pow2Monotone(m, n - 1); }
  }

  lemma Pow2Eight(n: nat)
    ensures Pow2(n + 8) == 256 * Pow2(n)
  {
    assert Pow2(n + 8) == 2 * Pow2(n + 7);
    assert Pow2(n + 7) == 2 * Pow2(n + 6);
    assert Pow2(n + 6) == 2 * Pow2(n + 5);
    assert Pow2(n + 5) == 2 * Pow2(n + 4);
    assert Pow2(n + 4) == 2 * Pow2(n + 3);
    assert Pow2(n + 3) == 2 * Pow2(n + 2);
    assert Pow2(n + 2) == 2 * Pow2(n + 1);
  }
}
