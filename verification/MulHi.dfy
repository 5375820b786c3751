/** The simulator's 64 by 64 bit multiplication that returns the high half of the product, for
    unsigned, signed and mixed operands. Machine words are integers; every C operation is
    followed by the reduction its type implies. */
module MulHi {
  const B32 := 0x1_0000_0000
  const B63 := 0x8000_0000_0000_0000
  const B64 := 0x1_0000_0000_0000_0000

  type uint64 = x: int | 0 <= x < B64
  type int64 = x: int | -B63 <= x < B63

  /** Conversions between the signed and unsigned readings of a machine word. */
  function U(x: int): uint64 { x % B64 }

  function S(u: uint64): int64 { if u < B63 then u else u - B64 }

  function U32(x: int): (r: nat)
    ensures r < B32
  {
    x % B32
  }

  function MulHu(a: uint64, b: uint64): uint64 {
    var a0, a1 := U32(a), a / B32;
    var b0, b1 := U32(b), b / B32;
    AddPartials(a0 * b0, a1 * b0, a0 * b1, a1 * b1)
  }

  /** The chain of additions over the four partial products. */
  function AddPartials(a0b0: int, a1b0: int, a0b1: int, a1b1: int): uint64 {
    var t := U(U(a1b0) + U(a0b0) / B32);
    var y1 := U32(t);
    var y2 := U32(t / B32);
    var t' := U(U(a0b1) + y1);
    var t'' := U(U(U(a1b1) + y2) + t' / B32);
    U(U32(t'' / B32) * B32) + U32(t'')
  }

  function Abs(x: int): nat { if x < 0 then -x else x }

  /** `a < 0 ? -a : a`, passed on as an unsigned word. */
  function Magnitude(a: int64): uint64 { if a < 0 then U(-(a as int)) else U(a) }

  function Complement(u: uint64): uint64 { B64 - 1 - u }

  /** `negate ? ~res + (a * b == 0) : res`, where the product is the 64-bit one. */
  function Signed(negate: bool, res: uint64, product: int): int64 {
    S(if negate then U(Complement(res) + (if U(product) == 0 then 1 else 0)) else res)
  }

  function MulH(a: int64, b: int64): int64 {
    Signed((a < 0) != (b < 0), MulHu(Magnitude(a), Magnitude(b)), a * b)
  }

  function MulHsu(a: int64, b: uint64): int64 {
    Signed(a < 0, MulHu(Magnitude(a), b), U(a) * b)
  }

  // ---------------------------------------------------------------------------------------

  lemma MulBound(x: nat, y: nat, m: nat)
    requires x <= m && y <= m
    ensures 0 <= x * y <= m * m
  {
    assert x * y <= x * m;
    assert x * m <= m * m;
  }

  lemma Expand(a1: nat, a0: nat, b1: nat, b0: nat)
    ensures (a1 * B32 + a0) * (b1 * B32 + b0) == (a1 * b1) * B64 + (a1 * b0 + a0 * b1) * B32 + a0 * b0
  {
  }

  /** The carries of the four partial products, by weight. */
  lemma Carries(p: nat, q: nat, r: nat, s: nat)
    ensures (s * B64 + (q + r) * B32 + p) / B64 ==
      s + (q + p / B32) / B32 + (r + (q + p / B32) % B32) / B32
  {
  }

  /** For all operands the result is the high word of the exact product; in particular none of
      the 64-bit intermediate sums wraps. */
  lemma MulHuCorrect(a: uint64, b: uint64)
    ensures MulHu(a, b) == (a * b) / B64
  {
    var a0, a1, b0, b1 := a % B32, a / B32, b % B32, b / B32;
    MulBound(a0, b0, B32 - 1);
    MulBound(a1, b0, B32 - 1);
    MulBound(a0, b1, B32 - 1);
    MulBound(a1, b1, B32 - 1);
    var p, q, r, s := a0 * b0, a1 * b0, a0 * b1, a1 * b1;
    assert a == a1 * B32 + a0 && b == b1 * B32 + b0;
    Expand(a1, a0, b1, b0);
    Carries(p, q, r, s);
    NoWrap(p, q, r, s);
    HighBound(a, b);
  }

  lemma HighBound(a: uint64, b: uint64)
    ensures 0 <= (a * b) / B64 < B64
  {
    MulBound(a, b, B64 - 1);
  }

  lemma NoWrap(p: nat, q: nat, r: nat, s: nat)
    requires p <= (B32 - 1) * (B32 - 1) && q <= (B32 - 1) * (B32 - 1)
    requires r <= (B32 - 1) * (B32 - 1) && s <= (B32 - 1) * (B32 - 1)
    ensures AddPartials(p, q, r, s) == s + (q + p / B32) / B32 + (r + (q + p / B32) % B32) / B32
  {
    hide U, U32;
    Fits(p);
    Fits(q);
    Fits(r);
    Fits(s);
    var t := q + p / B32;
    Fits(t);
    HighHalf(t);
    var t' := r + t % B32;
    Fits(t');
    Fits(s + t / B32);
    var t'' := s + t / B32 + t' / B32;
    Fits(t'');
    Halves(t'');
    assert U32(t) == t % B32 by { U32Is(t); }
  }

  lemma U32Is(x: nat)
    ensures U32(x) == x % B32
  {
  }

  lemma Fits(x: nat)
    requires x < B64
    ensures U(x) == x
  {
  }

  lemma HighHalf(x: nat)
    requires x < B64
    ensures U32(x / B32) == x / B32
  {
  }

  lemma Halves(x: nat)
    requires x < B64
    ensures U(U32(x / B32) * B32) + U32(x) == x
  {
  }

  // ---------------------------------------------------------------------------------------
  // Signed operands

  lemma MagnitudeIsAbs(a: int64)
    ensures Magnitude(a) == Abs(a)
  {
  }

  lemma {:induction false} SignedProduct(a: int, b: int)
    ensures a * b == if (a < 0) != (b < 0) then -(Abs(a) * Abs(b)) else Abs(a) * Abs(b)
  {
  }

  /** Negating a two-word number: complement the high word, and add one if the low word is zero. */
  lemma NegateHigh(p: nat)
    requires p / B64 < B63
    ensures S(U(Complement(p / B64) + (if p % B64 == 0 then 1 else 0))) == -(p as int) / B64
  {
  }

  lemma MagnitudeBound(x: nat, y: nat, m: nat, n: nat)
    requires x <= m && y <= n
    ensures x * y <= m * n
  {
    assert x * y <= x * n;
    assert x * n <= m * n;
  }

  lemma NegatedZero(p: int)
    ensures U(-p) == 0 <==> U(p) == 0
  {
  }

  /** The signed high product is the floor of the exact product over 2^64, for all operands,
      the most negative one and zero included. */
  lemma MulHCorrect(a: int64, b: int64)
    ensures MulH(a, b) == (a * b) / B64
  {
    MagnitudeIsAbs(a);
    MagnitudeIsAbs(b);
    MulHuCorrect(Abs(a), Abs(b));
    SignedProduct(a, b);
    var p := Abs(a) * Abs(b);
    MagnitudeBound(Abs(a), Abs(b), B63, B63);
    NegatedZero(p);
    NegateHigh(p);
    hide MulHu, Complement, Magnitude, Abs;
  }

  lemma ReducedFactor(a: int64, b: uint64)
    ensures U(U(a) * b) == U(a * b)
  {
    if a < 0 {
      assert (a + B64) * b == a * b + B64 * b;
      assert (a * b + B64 * b) % B64 == (a * b) % B64;
    }
  }

  /** The mixed high product, likewise. */
  lemma MulHsuCorrect(a: int64, b: uint64)
    ensures MulHsu(a, b) == (a * b) / B64
  {
    MagnitudeIsAbs(a);
    MulHuCorrect(Abs(a), b);
    SignedProduct(a, b);
    var p := Abs(a) * b;
    MagnitudeBound(Abs(a), b, B63, B64 - 1);
    ReducedFactor(a, b);
    NegatedZero(p);
    NegateHigh(p);
    hide MulHu, Complement, Magnitude, Abs;
  }
}
