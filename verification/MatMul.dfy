/** Matrix multiplication with register and cache blocking, on matrices that live in flat arrays
    with a leading dimension. Arithmetic is exact. */
module MatMul {
  import opened Arith

  const RBM: nat := 4
  const RBN: nat := 5
  const RBK: nat := 6
  const CBM: nat := 24
  const CBN: nat := 25
  const CBK: nat := 24

  // ---------------------------------------------------------------------------------------
  // Matrices in arrays

  /** Where a matrix starts in its array, and how far apart its rows are. */
  datatype Block = Block(off: nat, ld: nat)

  function Index(x: Block, i: nat, j: nat): nat {
    x.off + i * x.ld + j
  }

  /** The matrix that starts at row `i`, column `j`. */
  function Sub(x: Block, i: nat, j: nat): Block {
    Block(Index(x, i, j), x.ld)
  }

  function Get(s: seq<int>, k: nat): int {
    if k < |s| then s[k] else 0
  }

  function Elem(s: seq<int>, x: Block, i: nat, j: nat): int {
    Get(s, Index(x, i, j))
  }

  /** An `m` by `n` matrix lies inside an array of the given length. */
  predicate Fits(length: nat, x: Block, m: nat, n: nat) {
    m == 0 || n == 0 || Index(x, m - 1, n - 1) < length
  }

  lemma FitsElem(length: nat, x: Block, m: nat, n: nat, i: nat, j: nat)
    requires Fits(length, x, m, n) && i < m && j < n
    ensures Index(x, i, j) < length
  {
    MulLe(i, m - 1, x.ld);
  }

  lemma SubIndex(x: Block, i0: nat, j0: nat, i: nat, j: nat)
    ensures Index(Sub(x, i0, j0), i, j) == Index(x, i0 + i, j0 + j)
  {
    Distribute(i0, i, x.ld);
  }

  lemma Distribute(x: int, y: int, m: int)
    ensures (x + y) * m == x * m + y * m
  {
  }

  lemma FitsSub(length: nat, x: Block, m: nat, n: nat, i0: nat, j0: nat, m': nat, n': nat)
    requires Fits(length, x, m, n) && i0 + m' <= m && j0 + n' <= n
    ensures Fits(length, Sub(x, i0, j0), m', n')
  {
    if m' > 0 && n' > 0 {
      SubIndex(x, i0, j0, m' - 1, n' - 1);
      FitsElem(length, x, m, n, i0 + m' - 1, j0 + n' - 1);
    }
  }

  /** Rows do not overlap. */
  lemma Injective(x: Block, i: nat, j: nat, i': nat, j': nat)
    requires j < x.ld && j' < x.ld && Index(x, i, j) == Index(x, i', j')
    ensures i == i' && j == j'
  {
    DivModUnique(i * x.ld + j, x.ld, i, j);
    DivModUnique(i * x.ld + j, x.ld, i', j');
  }

  // ---------------------------------------------------------------------------------------
  // The specification

  datatype Operands = Operands(a: seq<int>, x: Block, b: seq<int>, y: Block)

  /** Row `i` of the one times column `j` of the other, over the inner indices in [k0, k1). */
  function Dot(o: Operands, i: nat, j: nat, k0: nat, k1: nat): int
    decreases k1
  {
    if k1 <= k0 then 0
    else Dot(o, i, j, k0, k1 - 1) + Elem(o.a, o.x, i, k1 - 1) * Elem(o.b, o.y, k1 - 1, j)
  }

  datatype Rect = Rect(i0: nat, i1: nat, j0: nat, j1: nat)

  predicate InRect(r: Rect, i: nat, j: nat) {
    r.i0 <= i < r.i1 && r.j0 <= j < r.j1
  }

  ghost predicate Touches(z: Block, r: Rect, k: nat) {
    exists i: nat, j: nat :: InRect(r, i, j) && Index(z, i, j) == k
  }

  /** From `c0` to `c1`, part of the product is added to the elements of the rectangle, and nothing
      else in the array changes. */
  ghost predicate Added(c0: seq<int>, c1: seq<int>, z: Block, o: Operands, r: Rect, k0: nat, k1: nat) {
    && |c1| == |c0|
    && (forall i: nat, j: nat :: InRect(r, i, j) ==> Elem(c1, z, i, j) == Elem(c0, z, i, j) + Dot(o, i, j, k0, k1))
    && (forall k: nat :: k < |c0| && !Touches(z, r, k) ==> c1[k] == c0[k])
  }

  lemma {:induction false} DotSplit(o: Operands, i: nat, j: nat, k0: nat, k1: nat, k2: nat)
    requires k0 <= k1 <= k2
    ensures Dot(o, i, j, k0, k2) == Dot(o, i, j, k0, k1) + Dot(o, i, j, k1, k2)
    decreases k2
  {
    hide Elem;
    if k1 < k2 { DotSplit(o, i, j, k0, k1, k2 - 1); }
  }

  /** An element outside the rectangle keeps its value. */
  lemma Untouched(c0: seq<int>, c1: seq<int>, z: Block, o: Operands, r: Rect, k0: nat, k1: nat, i: nat, j: nat)
    requires Added(c0, c1, z, o, r, k0, k1) && !InRect(r, i, j) && j < z.ld && r.j1 <= z.ld
    ensures Elem(c1, z, i, j) == Elem(c0, z, i, j)
  {
    hide Dot, Index;
    var k := Index(z, i, j);
    if k < |c0| && Touches(z, r, k) {
      var i': nat, j': nat :| InRect(r, i', j') && Index(z, i', j') == k;
      Injective(z, i, j, i', j');
    }
  }

  lemma Nothing(c: seq<int>, z: Block, o: Operands, r: Rect, k0: nat, k1: nat)
    requires k1 <= k0 || r.i1 <= r.i0 || r.j1 <= r.j0
    ensures Added(c, c, z, o, r, k0, k1)
  {
    hide Elem;
  }

  /** First one range of inner indices, then the next. */
  lemma JoinInner(c0: seq<int>, c1: seq<int>, c2: seq<int>, z: Block, o: Operands, r: Rect, k0: nat, k1: nat, k2: nat)
    requires Added(c0, c1, z, o, r, k0, k1) && Added(c1, c2, z, o, r, k1, k2) && k0 <= k1 <= k2
    ensures Added(c0, c2, z, o, r, k0, k2)
  {
    hide Elem, Dot, Touches;
    forall i: nat, j: nat | InRect(r, i, j)
      ensures Elem(c2, z, i, j) == Elem(c0, z, i, j) + Dot(o, i, j, k0, k2)
    {
      DotSplit(o, i, j, k0, k1, k2);
    }
  }

  ghost predicate Splits(r: Rect, r1: Rect, r2: Rect) {
    forall i: nat, j: nat ::
      (InRect(r, i, j) <==> InRect(r1, i, j) || InRect(r2, i, j)) && !(InRect(r1, i, j) && InRect(r2, i, j))
  }

  /** First one part of a rectangle, then the rest. */
  lemma JoinParts(c0: seq<int>, c1: seq<int>, c2: seq<int>, z: Block, o: Operands, r: Rect, r1: Rect, r2: Rect,
                  k0: nat, k1: nat)
    requires Added(c0, c1, z, o, r1, k0, k1) && Added(c1, c2, z, o, r2, k0, k1)
    requires Splits(r, r1, r2) && r.j1 <= z.ld && r1.j1 <= z.ld && r2.j1 <= z.ld
    ensures Added(c0, c2, z, o, r, k0, k1)
  {
    forall i: nat, j: nat | InRect(r, i, j)
      ensures Elem(c2, z, i, j) == Elem(c0, z, i, j) + Dot(o, i, j, k0, k1)
    {
      PartElem(c0, c1, c2, z, o, r, r1, r2, k0, k1, i, j);
    }
    forall k: nat | k < |c0| && !Touches(z, r, k)
      ensures c2[k] == c0[k]
    {
      PartRest(c0, c1, c2, z, o, r, r1, r2, k0, k1, k);
    }
  }

  lemma PartElem(c0: seq<int>, c1: seq<int>, c2: seq<int>, z: Block, o: Operands, r: Rect, r1: Rect, r2: Rect,
                 k0: nat, k1: nat, i: nat, j: nat)
    requires Added(c0, c1, z, o, r1, k0, k1) && Added(c1, c2, z, o, r2, k0, k1)
    requires Splits(r, r1, r2) && r.j1 <= z.ld && r1.j1 <= z.ld && r2.j1 <= z.ld && InRect(r, i, j)
    ensures Elem(c2, z, i, j) == Elem(c0, z, i, j) + Dot(o, i, j, k0, k1)
  {
    hide Elem, Dot, Touches;
    if InRect(r1, i, j) {
      Untouched(c1, c2, z, o, r2, k0, k1, i, j);
    } else {
      Untouched(c0, c1, z, o, r1, k0, k1, i, j);
    }
  }

  lemma PartRest(c0: seq<int>, c1: seq<int>, c2: seq<int>, z: Block, o: Operands, r: Rect, r1: Rect, r2: Rect,
                 k0: nat, k1: nat, k: nat)
    requires Added(c0, c1, z, o, r1, k0, k1) && Added(c1, c2, z, o, r2, k0, k1)
    requires Splits(r, r1, r2) && k < |c0| && !Touches(z, r, k)
    ensures c2[k] == c0[k]
  {
    hide Elem, Dot, Index;
  }

  /** The operands as seen from an element of each matrix. */
  function SubOperands(o: Operands, i0: nat, j0: nat, k0: nat): Operands {
    Operands(o.a, Sub(o.x, i0, k0), o.b, Sub(o.y, k0, j0))
  }

  lemma {:induction false} DotShift(o: Operands, i0: nat, j0: nat, k0: nat, i: nat, j: nat, p: nat)
    ensures Dot(SubOperands(o, i0, j0, k0), i, j, 0, p) == Dot(o, i0 + i, j0 + j, k0, k0 + p)
  {
    if p > 0 {
      DotShift(o, i0, j0, k0, i, j, p - 1);
      SubIndex(o.x, i0, k0, i, p - 1);
      SubIndex(o.y, k0, j0, p - 1, j);
    }
  }

  /** A product of parts of the matrices, as a part of the product of the whole. */
  lemma Lift(c0: seq<int>, c1: seq<int>, z: Block, o: Operands, i0: nat, j0: nat, k0: nat, m: nat, n: nat, p: nat)
    requires Added(c0, c1, Sub(z, i0, j0), SubOperands(o, i0, j0, k0), Rect(0, m, 0, n), 0, p)
    ensures Added(c0, c1, z, o, Rect(i0, i0 + m, j0, j0 + n), k0, k0 + p)
  {
    hide Get, Dot, Index, Sub, SubOperands, Touches;
    var r, r' := Rect(i0, i0 + m, j0, j0 + n), Rect(0, m, 0, n);
    forall i: nat, j: nat | InRect(r, i, j)
      ensures Elem(c1, z, i, j) == Elem(c0, z, i, j) + Dot(o, i, j, k0, k0 + p)
    {
      assert InRect(r', i - i0, j - j0);
      SubIndex(z, i0, j0, i - i0, j - j0);
      DotShift(o, i0, j0, k0, i - i0, j - j0, p);
    }
    forall k: nat | k < |c0| && !Touches(z, r, k)
      ensures c1[k] == c0[k]
    {
      if Touches(Sub(z, i0, j0), r', k) { TouchesLift(z, i0, j0, m, n, k); }
    }
  }

  lemma TouchesLift(z: Block, i0: nat, j0: nat, m: nat, n: nat, k: nat)
    requires Touches(Sub(z, i0, j0), Rect(0, m, 0, n), k)
    ensures Touches(z, Rect(i0, i0 + m, j0, j0 + n), k)
  {
    hide Index, Sub;
    var i: nat, j: nat :| InRect(Rect(0, m, 0, n), i, j) && Index(Sub(z, i0, j0), i, j) == k;
    SubIndex(z, i0, j0, i, j);
    assert InRect(Rect(i0, i0 + m, j0, j0 + n), i0 + i, j0 + j);
  }

  // ---------------------------------------------------------------------------------------
  // The plain triple loop

  /** One element, as four partial sums over the inner indices modulo 4. */
  method DotUnrolled(s: int, a: array<int>, x: Block, b: array<int>, y: Block, i: nat, j: nat, m: nat, n: nat, p: nat)
    returns (r: int)
    requires i < m && j < n && Fits(a.Length, x, m, p) && Fits(b.Length, y, p, n)
    ensures r == s + Dot(Operands(a[..], x, b[..], y), i, j, 0, p)
  {
    hide Index, Dot;
    ghost var o := Operands(a[..], x, b[..], y);
    var s0, s1, s2, s3 := s, 0, 0, 0;
    var k := 0;
    DotEmpty(o, i, j);
    while k < p / 4 * 4
      invariant k % 4 == 0 && k <= p / 4 * 4
      invariant s0 + s1 + s2 + s3 == s + Dot(o, i, j, 0, k)
    {
      s0 := Fma(a, x, b, y, i, j, m, n, p, k + 0, s0);
      s1 := Fma(a, x, b, y, i, j, m, n, p, k + 1, s1);
      s2 := Fma(a, x, b, y, i, j, m, n, p, k + 2, s2);
      s3 := Fma(a, x, b, y, i, j, m, n, p, k + 3, s3);
      DotNext4(o, i, j, k);
      k := k + 4;
    }
    k := p / 4 * 4;
    while k < p
      invariant p / 4 * 4 <= k <= p
      invariant s0 + s1 + s2 + s3 == s + Dot(o, i, j, 0, k)
    {
      s0 := Fma(a, x, b, y, i, j, m, n, p, k, s0);
      DotNext(o, i, j, k);
      k := k + 1;
    }
    r := (s0 + s1) + (s2 + s3);
  }

  function Term(o: Operands, i: nat, j: nat, k: nat): int {
    Elem(o.a, o.x, i, k) * Elem(o.b, o.y, k, j)
  }

  lemma DotEmpty(o: Operands, i: nat, j: nat)
    ensures Dot(o, i, j, 0, 0) == 0
  {
  }

  lemma DotNext(o: Operands, i: nat, j: nat, k: nat)
    ensures Dot(o, i, j, 0, k + 1) == Dot(o, i, j, 0, k) + Term(o, i, j, k)
  {
  }

  lemma DotNext4(o: Operands, i: nat, j: nat, k: nat)
    ensures Dot(o, i, j, 0, k + 4) == Dot(o, i, j, 0, k)
      + Term(o, i, j, k) + Term(o, i, j, k + 1) + Term(o, i, j, k + 2) + Term(o, i, j, k + 3)
  {
    hide Dot, Term;
    DotNext(o, i, j, k);
    DotNext(o, i, j, k + 1);
    DotNext(o, i, j, k + 2);
    DotNext(o, i, j, k + 3);
  }

  /** `fma(a[i*lda+k], b[k*ldb+j], s)`. */
  method Fma(a: array<int>, x: Block, b: array<int>, y: Block, i: nat, j: nat, m: nat, n: nat, p: nat, k: nat, s: int)
    returns (r: int)
    requires i < m && j < n && k < p && Fits(a.Length, x, m, p) && Fits(b.Length, y, p, n)
    ensures r == s + Term(Operands(a[..], x, b[..], y), i, j, k)
  {
    hide Index;
    FitsElem(a.Length, x, m, p, i, k);
    FitsElem(b.Length, y, p, n, k, j);
    var u, v := a[Index(x, i, k)], b[Index(y, k, j)];
    r := u * v + s;
  }

  /** One element is brought up to date. */
  lemma OneElement(c0: seq<int>, c1: seq<int>, z: Block, o: Operands, i: nat, j: nat, p: nat)
    requires Index(z, i, j) < |c0| && c1 == c0[Index(z, i, j) := c0[Index(z, i, j)] + Dot(o, i, j, 0, p)]
    ensures Added(c0, c1, z, o, Rect(i, i + 1, j, j + 1), 0, p)
  {
    hide Dot, Index;
    assert InRect(Rect(i, i + 1, j, j + 1), i, j);
  }

  method MmNaive(m: nat, n: nat, p: nat, a: array<int>, x: Block, b: array<int>, y: Block, c: array<int>, z: Block)
    requires Fits(a.Length, x, m, p) && Fits(b.Length, y, p, n) && Fits(c.Length, z, m, n)
    requires n <= z.ld && a != c && b != c
    modifies c
    ensures Added(old(c[..]), c[..], z, Operands(a[..], x, b[..], y), Rect(0, m, 0, n), 0, p)
  {
    hide Added, Fits, Dot, Index;
    ghost var o, c0 := Operands(a[..], x, b[..], y), c[..];
    Nothing(c0, z, o, Rect(0, 0, 0, n), 0, p);
    var i := 0;
    while i < m
      invariant i <= m && o == Operands(a[..], x, b[..], y)
      invariant Added(c0, c[..], z, o, Rect(0, i, 0, n), 0, p)
    {
      ghost var c1 := c[..];
      Nothing(c1, z, o, Rect(i, i + 1, 0, 0), 0, p);
      var j := 0;
      while j < n
        invariant j <= n && o == Operands(a[..], x, b[..], y)
        invariant Added(c1, c[..], z, o, Rect(i, i + 1, 0, j), 0, p)
      {
        ghost var c2 := c[..];
        FitsElem(c.Length, z, m, n, i, j);
        var s := DotUnrolled(c[Index(z, i, j)], a, x, b, y, i, j, m, n, p);
        c[Index(z, i, j)] := s;
        OneElement(c2, c[..], z, o, i, j, p);
        JoinParts(c1, c2, c[..], z, o, Rect(i, i + 1, 0, j + 1), Rect(i, i + 1, 0, j), Rect(i, i + 1, j, j + 1), 0, p);
        j := j + 1;
      }
      JoinParts(c0, c1, c[..], z, o, Rect(0, i + 1, 0, n), Rect(0, i, 0, n), Rect(i, i + 1, 0, n), 0, p);
      i := i + 1;
    }
  }

  // ---------------------------------------------------------------------------------------
  // The register-blocked kernel: four rows by five columns held in twenty accumulators

  type Row = s: seq<int> | |s| == 5 witness [0, 0, 0, 0, 0]
  type Tile = s: seq<Row> | |s| == 4 witness [ZEROS, ZEROS, ZEROS, ZEROS]

  const ZEROS: Row := [0, 0, 0, 0, 0]

  /** The accumulators after the first `k` inner indices. */
  ghost predicate Accumulates(acc: Tile, c: seq<int>, z: Block, o: Operands, k: nat) {
    forall i: nat, j: nat :: i < 4 && j < 5 ==> acc[i][j] == Elem(c, z, i, j) + Dot(o, i, j, 0, k)
  }

  method LoadRow(c: array<int>, z: Block, i: nat) returns (row: Row)
    requires i < 4 && Fits(c.Length, z, 4, 5)
    ensures forall j: nat :: j < 5 ==> row[j] == Elem(c[..], z, i, j)
  {
    hide Index;
    FitsElem(c.Length, z, 4, 5, i, 0);
    FitsElem(c.Length, z, 4, 5, i, 1);
    FitsElem(c.Length, z, 4, 5, i, 2);
    FitsElem(c.Length, z, 4, 5, i, 3);
    FitsElem(c.Length, z, 4, 5, i, 4);
    row := [c[Index(z, i, 0)], c[Index(z, i, 1)], c[Index(z, i, 2)], c[Index(z, i, 3)], c[Index(z, i, 4)]];
  }

  method FmaRow(row: Row, u: int, v: Row) returns (r: Row)
    ensures forall j: nat :: j < 5 ==> r[j] == row[j] + u * v[j]
  {
    r := [u * v[0] + row[0], u * v[1] + row[1], u * v[2] + row[2], u * v[3] + row[3], u * v[4] + row[4]];
  }

  /** One inner index: twenty multiply-adds. */
  method RankOne(acc: Tile, a: array<int>, x: Block, b: array<int>, y: Block, p: nat, k: nat) returns (r: Tile)
    requires k < p && Fits(a.Length, x, 4, p) && Fits(b.Length, y, p, 5)
    ensures forall i: nat, j: nat :: i < 4 && j < 5 ==>
      r[i][j] == acc[i][j] + Term(Operands(a[..], x, b[..], y), i, j, k)
  {
    hide Index;
    var v := BRow(b, y, p, k);
    FitsElem(a.Length, x, 4, p, 0, k);
    FitsElem(a.Length, x, 4, p, 1, k);
    FitsElem(a.Length, x, 4, p, 2, k);
    FitsElem(a.Length, x, 4, p, 3, k);
    var r0 := FmaRow(acc[0], a[Index(x, 0, k)], v);
    var r1 := FmaRow(acc[1], a[Index(x, 1, k)], v);
    var r2 := FmaRow(acc[2], a[Index(x, 2, k)], v);
    var r3 := FmaRow(acc[3], a[Index(x, 3, k)], v);
    r := [r0, r1, r2, r3];
  }

  method BRow(b: array<int>, y: Block, p: nat, k: nat) returns (v: Row)
    requires k < p && Fits(b.Length, y, p, 5)
    ensures forall j: nat :: j < 5 ==> v[j] == Elem(b[..], y, k, j)
  {
    hide Index;
    FitsElem(b.Length, y, p, 5, k, 0);
    FitsElem(b.Length, y, p, 5, k, 1);
    FitsElem(b.Length, y, p, 5, k, 2);
    FitsElem(b.Length, y, p, 5, k, 3);
    FitsElem(b.Length, y, p, 5, k, 4);
    v := [b[Index(y, k, 0)], b[Index(y, k, 1)], b[Index(y, k, 2)], b[Index(y, k, 3)], b[Index(y, k, 4)]];
  }

  method Accumulate(acc: Tile, a: array<int>, x: Block, b: array<int>, y: Block, p: nat, k: nat,
                    ghost c: seq<int>, ghost z: Block) returns (r: Tile)
    requires k < p && Fits(a.Length, x, 4, p) && Fits(b.Length, y, p, 5)
    requires Accumulates(acc, c, z, Operands(a[..], x, b[..], y), k)
    ensures Accumulates(r, c, z, Operands(a[..], x, b[..], y), k + 1)
  {
    hide Index, Elem, Term, Dot, Fits;
    r := RankOne(acc, a, x, b, y, p, k);
    ghost var o := Operands(a[..], x, b[..], y);
    forall i: nat, j: nat | i < 4 && j < 5
      ensures r[i][j] == Elem(c, z, i, j) + Dot(o, i, j, 0, k + 1)
    {
      DotNext(o, i, j, k);
    }
  }

  method StoreElem(c: array<int>, z: Block, i: nat, j: nat, v: int, ghost c0: seq<int>, ghost o: Operands, ghost p: nat)
    requires i < 4 && j < 5 && Fits(c.Length, z, 4, 5) && 5 <= z.ld
    requires Added(c0, c[..], z, o, Rect(i, i + 1, 0, j), 0, p) && v == Elem(c0, z, i, j) + Dot(o, i, j, 0, p)
    modifies c
    ensures Added(c0, c[..], z, o, Rect(i, i + 1, 0, j + 1), 0, p)
  {
    hide Added, Index, Dot;
    ghost var c1 := c[..];
    FitsElem(c.Length, z, 4, 5, i, j);
    Untouched(c0, c1, z, o, Rect(i, i + 1, 0, j), 0, p, i, j);
    SameLength(c0, c1, z, o, Rect(i, i + 1, 0, j), 0, p);
    c[Index(z, i, j)] := v;
    OneElement(c1, c[..], z, o, i, j, p);
    JoinParts(c0, c1, c[..], z, o, Rect(i, i + 1, 0, j + 1), Rect(i, i + 1, 0, j), Rect(i, i + 1, j, j + 1), 0, p);
  }

  lemma SameLength(c0: seq<int>, c1: seq<int>, z: Block, o: Operands, r: Rect, k0: nat, k1: nat)
    requires Added(c0, c1, z, o, r, k0, k1)
    ensures |c1| == |c0|
  {
  }

  method StoreRow(c: array<int>, z: Block, i: nat, row: Row, ghost o: Operands, ghost p: nat)
    requires i < 4 && Fits(c.Length, z, 4, 5) && 5 <= z.ld
    requires forall j: nat :: j < 5 ==> row[j] == Elem(c[..], z, i, j) + Dot(o, i, j, 0, p)
    modifies c
    ensures Added(old(c[..]), c[..], z, o, Rect(i, i + 1, 0, 5), 0, p)
  {
    hide Added, Index, Dot, Elem, Fits;
    ghost var c0 := c[..];
    Nothing(c0, z, o, Rect(i, i + 1, 0, 0), 0, p);
    StoreElem(c, z, i, 0, row[0], c0, o, p);
    StoreElem(c, z, i, 1, row[1], c0, o, p);
    StoreElem(c, z, i, 2, row[2], c0, o, p);
    StoreElem(c, z, i, 3, row[3], c0, o, p);
    StoreElem(c, z, i, 4, row[4], c0, o, p);
  }

  method StoreNextRow(c: array<int>, z: Block, i: nat, acc: Tile, ghost c0: seq<int>, ghost o: Operands, ghost p: nat)
    requires i < 4 && Fits(c.Length, z, 4, 5) && 5 <= z.ld
    requires Accumulates(acc, c0, z, o, p) && Added(c0, c[..], z, o, Rect(0, i, 0, 5), 0, p)
    modifies c
    ensures Added(c0, c[..], z, o, Rect(0, i + 1, 0, 5), 0, p)
  {
    hide Added, Index, Dot, Elem, Fits;
    ghost var c1 := c[..];
    forall j: nat | j < 5
      ensures acc[i][j] == Elem(c1, z, i, j) + Dot(o, i, j, 0, p)
    {
      Untouched(c0, c1, z, o, Rect(0, i, 0, 5), 0, p, i, j);
    }
    StoreRow(c, z, i, acc[i], o, p);
    JoinParts(c0, c1, c[..], z, o, Rect(0, i + 1, 0, 5), Rect(0, i, 0, 5), Rect(i, i + 1, 0, 5), 0, p);
  }

  method LoadTile(c: array<int>, z: Block, ghost o: Operands) returns (acc: Tile)
    requires Fits(c.Length, z, 4, 5)
    ensures Accumulates(acc, c[..], z, o, 0)
  {
    hide Index, Elem, Fits;
    var r0 := LoadRow(c, z, 0);
    var r1 := LoadRow(c, z, 1);
    var r2 := LoadRow(c, z, 2);
    var r3 := LoadRow(c, z, 3);
    acc := [r0, r1, r2, r3];
  }

  method KLoop(p: nat, a: array<int>, x: Block, b: array<int>, y: Block, c: array<int>, z: Block)
    requires Fits(a.Length, x, RBM, p) && Fits(b.Length, y, p, RBN) && Fits(c.Length, z, RBM, RBN)
    requires RBN <= z.ld && a != c && b != c
    modifies c
    ensures Added(old(c[..]), c[..], z, Operands(a[..], x, b[..], y), Rect(0, RBM, 0, RBN), 0, p)
  {
    hide Added, Fits, Accumulates;
    ghost var o, c0 := Operands(a[..], x, b[..], y), c[..];
    var acc := LoadTile(c, z, o);
    var k := 0;
    while k < p / RBK * RBK
      invariant k % RBK == 0 && k <= p / RBK * RBK
      invariant c[..] == c0 && o == Operands(a[..], x, b[..], y)
      invariant Accumulates(acc, c0, z, o, k)
    {
      acc := Accumulate(acc, a, x, b, y, p, k + 0, c0, z);
      acc := Accumulate(acc, a, x, b, y, p, k + 1, c0, z);
      acc := Accumulate(acc, a, x, b, y, p, k + 2, c0, z);
      acc := Accumulate(acc, a, x, b, y, p, k + 3, c0, z);
      acc := Accumulate(acc, a, x, b, y, p, k + 4, c0, z);
      acc := Accumulate(acc, a, x, b, y, p, k + 5, c0, z);
      k := k + RBK;
    }
    while k < p
      invariant p / RBK * RBK <= k <= p
      invariant c[..] == c0 && o == Operands(a[..], x, b[..], y)
      invariant Accumulates(acc, c0, z, o, k)
    {
      acc := Accumulate(acc, a, x, b, y, p, k, c0, z);
      k := k + 1;
    }
    Nothing(c0, z, o, Rect(0, 0, 0, RBN), 0, p);
    StoreNextRow(c, z, 0, acc, c0, o, p);
    StoreNextRow(c, z, 1, acc, c0, o, p);
    StoreNextRow(c, z, 2, acc, c0, o, p);
    StoreNextRow(c, z, 3, acc, c0, o, p);
  }

  // ---------------------------------------------------------------------------------------
  // Register blocking

  /** One product of parts, called for by the blocked loops. */
  method AddPart(m: nat, n: nat, p: nat, a: array<int>, x: Block, b: array<int>, y: Block, c: array<int>, z: Block,
                 i0: nat, j0: nat, k0: nat, m': nat, n': nat, p': nat, kernel: Kernel)
    requires Fits(a.Length, x, m, p) && Fits(b.Length, y, p, n) && Fits(c.Length, z, m, n)
    requires n <= z.ld && a != c && b != c
    requires i0 + m' <= m && j0 + n' <= n && k0 + p' <= p
    requires kernel == Unrolled ==> m' == RBM && n' == RBN
    modifies c
    ensures Added(old(c[..]), c[..], z, Operands(a[..], x, b[..], y), Rect(i0, i0 + m', j0, j0 + n'), k0, k0 + p')
  {
    hide Added, Fits, Dot, Index;
    FitsSub(a.Length, x, m, p, i0, k0, m', p');
    FitsSub(b.Length, y, p, n, k0, j0, p', n');
    FitsSub(c.Length, z, m, n, i0, j0, m', n');
    ghost var o, c0 := Operands(a[..], x, b[..], y), c[..];
    match kernel {
      case Unrolled => KLoop(p', a, Sub(x, i0, k0), b, Sub(y, k0, j0), c, Sub(z, i0, j0));
      case Plain => MmNaive(m', n', p', a, Sub(x, i0, k0), b, Sub(y, k0, j0), c, Sub(z, i0, j0));
    }
    Lift(c0, c[..], z, o, i0, j0, k0, m', n', p');
  }

  datatype Kernel = Unrolled | Plain

  method MmRb(m: nat, n: nat, p: nat, a: array<int>, x: Block, b: array<int>, y: Block, c: array<int>, z: Block)
    requires Fits(a.Length, x, m, p) && Fits(b.Length, y, p, n) && Fits(c.Length, z, m, n)
    requires n <= z.ld && a != c && b != c
    modifies c
    ensures Added(old(c[..]), c[..], z, Operands(a[..], x, b[..], y), Rect(0, m, 0, n), 0, p)
  {
    hide Added, Fits, Dot, Index;
    var mb, nb := m / RBM * RBM, n / RBN * RBN;
    ghost var o, c0 := Operands(a[..], x, b[..], y), c[..];
    Nothing(c0, z, o, Rect(0, 0, 0, n), 0, p);
    var i := 0;
    while i < mb
      invariant i % RBM == 0 && i <= mb && o == Operands(a[..], x, b[..], y)
      invariant Added(c0, c[..], z, o, Rect(0, i, 0, n), 0, p)
    {
      ghost var c1 := c[..];
      Nothing(c1, z, o, Rect(i, i + RBM, 0, 0), 0, p);
      var j := 0;
      while j < nb
        invariant j % RBN == 0 && j <= nb && o == Operands(a[..], x, b[..], y)
        invariant Added(c1, c[..], z, o, Rect(i, i + RBM, 0, j), 0, p)
      {
        ghost var c2 := c[..];
        AddPart(m, n, p, a, x, b, y, c, z, i, j, 0, RBM, RBN, p, Unrolled);
        JoinColumns(c1, c2, c[..], z, o, i, i + RBM, 0, j, j + RBN, p);
        j := j + RBN;
      }
      ghost var c3 := c[..];
      AddPart(m, n, p, a, x, b, y, c, z, i, nb, 0, RBM, n - nb, p, Plain);
      JoinColumns(c1, c3, c[..], z, o, i, i + RBM, 0, nb, n, p);
      JoinRows(c0, c1, c[..], z, o, 0, i, i + RBM, 0, n, p);
      i := i + RBM;
    }
    ghost var c4 := c[..];
    AddPart(m, n, p, a, x, b, y, c, z, mb, 0, 0, m - mb, n, p, Plain);
    JoinRows(c0, c4, c[..], z, o, 0, mb, m, 0, n, p);
  }

  lemma JoinColumns(c0: seq<int>, c1: seq<int>, c2: seq<int>, z: Block, o: Operands,
                    i0: nat, i1: nat, j0: nat, j1: nat, j2: nat, p: nat)
    requires Added(c0, c1, z, o, Rect(i0, i1, j0, j1), 0, p) && Added(c1, c2, z, o, Rect(i0, i1, j1, j2), 0, p)
    requires j0 <= j1 <= j2 <= z.ld
    ensures Added(c0, c2, z, o, Rect(i0, i1, j0, j2), 0, p)
  {
    hide Added;
    JoinParts(c0, c1, c2, z, o, Rect(i0, i1, j0, j2), Rect(i0, i1, j0, j1), Rect(i0, i1, j1, j2), 0, p);
  }

  lemma JoinRows(c0: seq<int>, c1: seq<int>, c2: seq<int>, z: Block, o: Operands,
                 i0: nat, i1: nat, i2: nat, j0: nat, j1: nat, p: nat)
    requires Added(c0, c1, z, o, Rect(i0, i1, j0, j1), 0, p) && Added(c1, c2, z, o, Rect(i1, i2, j0, j1), 0, p)
    requires i0 <= i1 <= i2 && j1 <= z.ld
    ensures Added(c0, c2, z, o, Rect(i0, i2, j0, j1), 0, p)
  {
    hide Added;
    JoinParts(c0, c1, c2, z, o, Rect(i0, i2, j0, j1), Rect(i0, i1, j0, j1), Rect(i1, i2, j0, j1), 0, p);
  }

  // ---------------------------------------------------------------------------------------
  // Packing

  /** From `d0` to `d1`, the elements of the rectangle become those of the other matrix, and
      nothing else changes. */
  ghost predicate Copied(d0: seq<int>, d1: seq<int>, w: Block, s: seq<int>, z: Block, r: Rect) {
    && |d1| == |d0|
    && (forall i: nat, j: nat :: InRect(r, i, j) ==> Elem(d1, w, i, j) == Elem(s, z, i, j))
    && (forall k: nat :: k < |d0| && !Touches(w, r, k) ==> d1[k] == d0[k])
  }

  lemma NothingCopied(d: seq<int>, w: Block, s: seq<int>, z: Block, r: Rect)
    requires r.i1 <= r.i0 || r.j1 <= r.j0
    ensures Copied(d, d, w, s, z, r)
  {
  }

  lemma CopiedKeeps(d0: seq<int>, d1: seq<int>, w: Block, s: seq<int>, z: Block, r: Rect, i: nat, j: nat)
    requires Copied(d0, d1, w, s, z, r) && !InRect(r, i, j) && j < w.ld && r.j1 <= w.ld
    ensures Elem(d1, w, i, j) == Elem(d0, w, i, j)
  {
    hide Index;
    var k := Index(w, i, j);
    if k < |d0| && Touches(w, r, k) {
      var i': nat, j': nat :| InRect(r, i', j') && Index(w, i', j') == k;
      Injective(w, i, j, i', j');
    }
  }

  lemma JoinCopied(d0: seq<int>, d1: seq<int>, d2: seq<int>, w: Block, s: seq<int>, z: Block, r: Rect, r1: Rect,
      r2: Rect)
    requires Copied(d0, d1, w, s, z, r1) && Copied(d1, d2, w, s, z, r2)
    requires Splits(r, r1, r2) && r1.j1 <= w.ld && r2.j1 <= w.ld
    ensures Copied(d0, d2, w, s, z, r)
  {
    hide Elem, Index, Touches;
    forall i: nat, j: nat | InRect(r, i, j)
      ensures Elem(d2, w, i, j) == Elem(s, z, i, j)
    {
      if !InRect(r2, i, j) { CopiedKeeps(d1, d2, w, s, z, r2, i, j); }
    }
    forall k: nat | k < |d0| && !Touches(w, r, k)
      ensures d2[k] == d0[k]
    {
      NotTouched(w, r, r1, r2, k);
    }
  }

  lemma NotTouched(w: Block, r: Rect, r1: Rect, r2: Rect, k: nat)
    requires Splits(r, r1, r2) && !Touches(w, r, k)
    ensures !Touches(w, r1, k) && !Touches(w, r2, k)
  {
    hide Index;
  }

  /** Eight reads, then eight writes. */
  method CopyEight(d: array<int>, w: nat, s: array<int>, z: nat)
    requires w + 8 <= d.Length && z + 8 <= s.Length && d != s
    modifies d
    ensures d[..] == old(d[..w]) + s[z..z + 8] + old(d[w + 8..])
  {
    var t0, t1, t2, t3 := s[z], s[z + 1], s[z + 2], s[z + 3];
    var t4, t5, t6, t7 := s[z + 4], s[z + 5], s[z + 6], s[z + 7];
    ghost var d0 := d[..];
    WriteFour(d, w, t0, t1, t2, t3);
    ghost var d1 := d[..];
    WriteFour(d, w + 4, t4, t5, t6, t7);
    FourAndFour(d0, d1, d[..], w, [t0, t1, t2, t3], [t4, t5, t6, t7]);
    assert s[z..z + 8] == [t0, t1, t2, t3] + [t4, t5, t6, t7];
  }

  lemma FourAndFour(d0: seq<int>, d1: seq<int>, d2: seq<int>, w: nat, t: seq<int>, t': seq<int>)
    requires |t| == |t'| == 4 && w + 8 <= |d0| == |d1|
    requires d1 == d0[..w] + t + d0[w + 4..] && d2 == d1[..w + 4] + t' + d1[w + 8..]
    ensures d2 == d0[..w] + (t + t') + d0[w + 8..]
  {
    assert d1[..w + 4] == d0[..w] + t;
    assert d1[w + 8..] == d0[w + 8..];
  }

  method WriteFour(d: array<int>, w: nat, t0: int, t1: int, t2: int, t3: int)
    requires w + 4 <= d.Length
    modifies d
    ensures d[..] == old(d[..w]) + [t0, t1, t2, t3] + old(d[w + 4..])
  {
    d[w] := t0;
    d[w + 1] := t1;
    d[w + 2] := t2;
    d[w + 3] := t3;
  }

  lemma CopiedRun(d0: seq<int>, d1: seq<int>, w: Block, s: seq<int>, z: Block, i: nat, j: nat, n: nat)
    requires Index(w, i, j) + n <= |d0| && Index(z, i, j) + n <= |s|
    requires d1 == d0[..Index(w, i, j)] + s[Index(z, i, j)..Index(z, i, j) + n] + d0[Index(w, i, j) + n..]
    ensures Copied(d0, d1, w, s, z, Rect(i, i + 1, j, j + n))
  {
    var u, v, r := Index(w, i, j), Index(z, i, j), Rect(i, i + 1, j, j + n);
    forall i': nat, j': nat | InRect(r, i', j')
      ensures Elem(d1, w, i', j') == Elem(s, z, i', j')
    {
      NextInRow(w, i, j, j' - j);
      NextInRow(z, i, j, j' - j);
    }
    forall k: nat | k < |d0| && !Touches(w, r, k)
      ensures d1[k] == d0[k]
    {
      if u <= k < u + n {
        RunTouches(w, i, j, n, k);
      }
    }
  }

  lemma RunTouches(w: Block, i: nat, j: nat, n: nat, k: nat)
    requires Index(w, i, j) <= k < Index(w, i, j) + n
    ensures Touches(w, Rect(i, i + 1, j, j + n), k)
  {
    var e := k - Index(w, i, j);
    NextInRow(w, i, j, e);
    assert InRect(Rect(i, i + 1, j, j + n), i, j + e);
  }

  lemma NextInRow(w: Block, i: nat, j: nat, e: nat)
    ensures Index(w, i, j + e) == Index(w, i, j) + e
  {
  }

  method Repack(d: array<int>, w: Block, s: array<int>, z: Block, m: nat, n: nat)
    requires Fits(d.Length, w, m, n) && Fits(s.Length, z, m, n) && n <= w.ld && d != s
    modifies d
    ensures Copied(old(d[..]), d[..], w, s[..], z, Rect(0, m, 0, n))
  {
    hide Copied, Fits, Index;
    ghost var d0 := d[..];
    NothingCopied(d0, w, s[..], z, Rect(0, 0, 0, n));
    var i := 0;
    while i < m
      invariant i <= m
      invariant Copied(d0, d[..], w, s[..], z, Rect(0, i, 0, n))
    {
      ghost var d1 := d[..];
      NothingCopied(d1, w, s[..], z, Rect(i, i + 1, 0, 0));
      var j := 0;
      while j < n / 8 * 8
        invariant j % 8 == 0 && j <= n / 8 * 8
        invariant Copied(d1, d[..], w, s[..], z, Rect(i, i + 1, 0, j))
      {
        CopyMore(d, w, s, z, m, n, i, j, 8, d1);
        j := j + 8;
      }
      while j < n
        invariant n / 8 * 8 <= j <= n
        invariant Copied(d1, d[..], w, s[..], z, Rect(i, i + 1, 0, j))
      {
        CopyMore(d, w, s, z, m, n, i, j, 1, d1);
        j := j + 1;
      }
      JoinCopied(d0, d1, d[..], w, s[..], z, Rect(0, i + 1, 0, n), Rect(0, i, 0, n), Rect(i, i + 1, 0, n));
      i := i + 1;
    }
  }

  lemma UpdateIsRun(d: seq<int>, u: nat, s: seq<int>, v: nat)
    requires u < |d| && v < |s|
    ensures d[u := s[v]] == d[..u] + s[v..v + 1] + d[u + 1..]
  {
  }

  /** The next eight elements of a row, or the next one. */
  method CopyMore(d: array<int>, w: Block, s: array<int>, z: Block, m: nat, n: nat, i: nat, j: nat, e: nat,
      ghost d1: seq<int>)
    requires Fits(d.Length, w, m, n) && Fits(s.Length, z, m, n) && n <= w.ld && d != s
    requires i < m && j + e <= n && (e == 8 || e == 1)
    requires Copied(d1, d[..], w, s[..], z, Rect(i, i + 1, 0, j))
    modifies d
    ensures Copied(d1, d[..], w, s[..], z, Rect(i, i + 1, 0, j + e))
  {
    hide Copied, Fits, Index;
    ghost var d2 := d[..];
    FitsElem(d.Length, w, m, n, i, j + e - 1);
    FitsElem(s.Length, z, m, n, i, j + e - 1);
    NextInRow(w, i, j, e - 1);
    NextInRow(z, i, j, e - 1);
    var u, v := Index(w, i, j), Index(z, i, j);
    if e == 8 {
      CopyEight(d, u, s, v);
    } else {
      d[u] := s[v];
      assert d[..] == d2[u := s[v]];
      UpdateIsRun(d2, u, s[..], v);
    }
    assert s[..][v..v + e] == s[v..v + e];
    CopiedRun(d2, d[..], w, s[..], z, i, j, e);
    JoinCopied(d1, d2, d[..], w, s[..], z, Rect(i, i + 1, 0, j + e), Rect(i, i + 1, 0, j), Rect(i, i + 1, j, j + e));
  }

  // ---------------------------------------------------------------------------------------
  // Tiles stored one after the other

  /** Tile number `t` of an array of `bm` by `bn` tiles. */
  function TileAt(t: nat, bm: nat, bn: nat): Block {
    Block(t * (bm * bn), bn)
  }

  function Whole(bm: nat, bn: nat): Rect { Rect(0, bm, 0, bn) }

  lemma InTile(i: nat, j: nat, bm: nat, bn: nat)
    requires i < bm && j < bn
    ensures i * bn + j < bm * bn
  {
    MulLe(i + 1, bm, bn);
    MulAddOne(i, bn);
  }

  lemma TileFits(length: nat, t: nat, count: nat, bm: nat, bn: nat)
    requires t < count && length == count * (bm * bn)
    ensures Fits(length, TileAt(t, bm, bn), bm, bn)
  {
    if bm > 0 && bn > 0 {
      InTile(bm - 1, bn - 1, bm, bn);
      MulLe(t + 1, count, bm * bn);
      MulAddOne(t, bm * bn);
    }
  }

  lemma TilesApart(t: nat, t': nat, bm: nat, bn: nat, i: nat, j: nat, i': nat, j': nat)
    requires t != t' && i < bm && j < bn && i' < bm && j' < bn
    ensures Index(TileAt(t, bm, bn), i, j) != Index(TileAt(t', bm, bn), i', j')
  {
    InTile(i, j, bm, bn);
    InTile(i', j', bm, bn);
    var s := bm * bn;
    DivModUnique(t * s + (i * bn + j), s, t, i * bn + j);
    DivModUnique(t' * s + (i' * bn + j'), s, t', i' * bn + j');
  }

  /** Nothing outside tile `t` changes. */
  ghost predicate OnlyTile(d0: seq<int>, d1: seq<int>, t: nat, bm: nat, bn: nat) {
    |d1| == |d0| && forall k: nat :: k < |d0| && !Touches(TileAt(t, bm, bn), Whole(bm, bn), k) ==> d1[k] == d0[k]
  }

  lemma OtherTile(d0: seq<int>, d1: seq<int>, t: nat, t': nat, bm: nat, bn: nat, i: nat, j: nat)
    requires OnlyTile(d0, d1, t, bm, bn) && t' != t && i < bm && j < bn
    ensures Elem(d1, TileAt(t', bm, bn), i, j) == Elem(d0, TileAt(t', bm, bn), i, j)
  {
    hide Index, TileAt;
    var w, k := TileAt(t, bm, bn), Index(TileAt(t', bm, bn), i, j);
    if k < |d0| && Touches(w, Whole(bm, bn), k) {
      var i': nat, j': nat :| InRect(Whole(bm, bn), i', j') && Index(w, i', j') == k;
      TilesApart(t, t', bm, bn, i', j', i, j);
    }
  }

  lemma OnlyTileTwice(d0: seq<int>, d1: seq<int>, d2: seq<int>, t: nat, bm: nat, bn: nat)
    requires OnlyTile(d0, d1, t, bm, bn) && OnlyTile(d1, d2, t, bm, bn)
    ensures OnlyTile(d0, d2, t, bm, bn)
  {
    hide Touches, TileAt;
  }

  /** A tile holds the part of a matrix that starts at row `i0`, column `j0`. */
  ghost predicate Holds(d: seq<int>, t: nat, bm: nat, bn: nat, s: seq<int>, z: Block, i0: nat, j0: nat) {
    forall i: nat, j: nat :: i < bm && j < bn ==> Elem(d, TileAt(t, bm, bn), i, j) == Elem(s, z, i0 + i, j0 + j)
  }

  /** Tile `t` holds the part it should, `ncols` tiles making up a row of them. */
  ghost predicate HoldsPart(d: seq<int>, t: nat, ncols: nat, bm: nat, bn: nat, s: seq<int>, z: Block)
    requires ncols > 0
  {
    Holds(d, t, bm, bn, s, z, (t / ncols) * bm, (t % ncols) * bn)
  }

  lemma CopiedHolds(d0: seq<int>, d1: seq<int>, t: nat, bm: nat, bn: nat, s: seq<int>, z: Block, i0: nat, j0: nat)
    requires Copied(d0, d1, TileAt(t, bm, bn), s, Sub(z, i0, j0), Whole(bm, bn))
    ensures OnlyTile(d0, d1, t, bm, bn) && Holds(d1, t, bm, bn, s, z, i0, j0)
  {
    hide Index, Sub, TileAt, Touches;
    forall i: nat, j: nat | i < bm && j < bn
      ensures Elem(d1, TileAt(t, bm, bn), i, j) == Elem(s, z, i0 + i, j0 + j)
    {
      assert InRect(Whole(bm, bn), i, j);
      SubIndex(z, i0, j0, i, j);
    }
  }

  lemma HoldsStill(d0: seq<int>, d1: seq<int>, t: nat, t': nat, ncols: nat, bm: nat, bn: nat, s: seq<int>, z: Block)
    requires ncols > 0 && OnlyTile(d0, d1, t, bm, bn) && t' != t && HoldsPart(d0, t', ncols, bm, bn, s, z)
    ensures HoldsPart(d1, t', ncols, bm, bn, s, z)
  {
    hide Elem, OnlyTile, TileAt;
    var i0, j0 := (t' / ncols) * bm, (t' % ncols) * bn;
    forall i: nat, j: nat | i < bm && j < bn
      ensures Elem(d1, TileAt(t', bm, bn), i, j) == Elem(s, z, i0 + i, j0 + j)
    {
      OtherTile(d0, d1, t, t', bm, bn, i, j);
    }
  }

  lemma RowAndColumn(ncols: nat, i: nat, j: nat)
    requires j < ncols
    ensures (ncols * i + j) / ncols == i && (ncols * i + j) % ncols == j
  {
    DivModUnique(ncols * i + j, ncols, i, j);
  }

  lemma SlotBound(nrows: nat, ncols: nat, i: nat, j: nat)
    requires i < nrows && j < ncols
    ensures ncols * i + j < nrows * ncols
  {
    MulLe(i + 1, nrows, ncols);
    MulAddOne(i, ncols);
  }

  /** Every tile of `d` is filled from the matrix. */
  method Pack(d: array<int>, nrows: nat, ncols: nat, bm: nat, bn: nat, s: array<int>, z: Block, m: nat, n: nat)
    requires d != s && d.Length == (nrows * ncols) * (bm * bn)
    requires Fits(s.Length, z, m, n) && nrows * bm <= m && ncols * bn <= n
    modifies d
    ensures ncols > 0 ==> forall t: nat :: t < nrows * ncols ==> HoldsPart(d[..], t, ncols, bm, bn, s[..], z)
  {
    hide HoldsPart, Fits, Index;
    var i := 0;
    while i < nrows
      invariant i <= nrows
      invariant ncols > 0 ==> forall t: nat :: t < ncols * i ==> HoldsPart(d[..], t, ncols, bm, bn, s[..], z)
    {
      var j := 0;
      while j < ncols
        invariant j <= ncols
        invariant ncols > 0 ==> forall t: nat :: t < ncols * i + j ==> HoldsPart(d[..], t, ncols, bm, bn, s[..], z)
      {
        PackTile(d, nrows, ncols, bm, bn, s, z, m, n, i, j);
        j := j + 1;
      }
      i := i + 1;
    }
  }

  method PackTile(d: array<int>, nrows: nat, ncols: nat, bm: nat, bn: nat, s: array<int>, z: Block, m: nat, n: nat,
                  i: nat, j: nat)
    requires d != s && d.Length == (nrows * ncols) * (bm * bn)
    requires Fits(s.Length, z, m, n) && nrows * bm <= m && ncols * bn <= n && i < nrows && j < ncols
    modifies d
    ensures OnlyTile(old(d[..]), d[..], ncols * i + j, bm, bn)
    ensures HoldsPart(d[..], ncols * i + j, ncols, bm, bn, s[..], z)
    ensures forall t: nat :: t < ncols * i + j && HoldsPart(old(d[..]), t, ncols, bm, bn, s[..], z) ==>
      HoldsPart(d[..], t, ncols, bm, bn, s[..], z)
  {
    hide Fits, Index, Holds, OnlyTile, Copied, TileAt;
    ghost var d0 := d[..];
    var t := ncols * i + j;
    SlotBound(nrows, ncols, i, j);
    TileFits(d.Length, t, nrows * ncols, bm, bn);
    TileInside(nrows, bm, m, i);
    TileInside(ncols, bn, n, j);
    FitsSub(s.Length, z, m, n, i * bm, j * bn, bm, bn);
    TileWidth(t, bm, bn);
    Repack(d, TileAt(t, bm, bn), s, Sub(z, i * bm, j * bn), bm, bn);
    CopiedHolds(d0, d[..], t, bm, bn, s[..], z, i * bm, j * bn);
    RowAndColumn(ncols, i, j);
    forall t': nat | t' < t && HoldsPart(d0, t', ncols, bm, bn, s[..], z)
      ensures HoldsPart(d[..], t', ncols, bm, bn, s[..], z)
    {
      HoldsStill(d0, d[..], t, t', ncols, bm, bn, s[..], z);
    }
  }

  lemma TileWidth(t: nat, bm: nat, bn: nat)
    ensures TileAt(t, bm, bn).ld == bn
  {
  }

  lemma TileInside(count: nat, size: nat, m: nat, i: nat)
    requires i < count && count * size <= m
    ensures i * size + size <= m
  {
    MulLe(i + 1, count, size);
    MulAddOne(i, size);
  }

  // ---------------------------------------------------------------------------------------
  // Cache blocking

  /** A tile of the packed result: the old elements plus the product over the first `k` inner
      indices, for the part that starts at row `i0`, column `j0`. */
  ghost predicate SumAt(d: seq<int>, t: nat, c0: seq<int>, z: Block, o: Operands, i0: nat, j0: nat, k: nat) {
    forall i: nat, j: nat :: i < CBM && j < CBN ==>
      Elem(d, TileAt(t, CBM, CBN), i, j) == Elem(c0, z, i0 + i, j0 + j) + Dot(o, i0 + i, j0 + j, 0, k)
  }

  ghost predicate SumPart(d: seq<int>, t: nat, ncols: nat, c0: seq<int>, z: Block, o: Operands, k: nat)
    requires ncols > 0
  {
    SumAt(d, t, c0, z, o, (t / ncols) * CBM, (t % ncols) * CBN, k)
  }

  lemma HoldsSum(d: seq<int>, t: nat, ncols: nat, c0: seq<int>, z: Block, o: Operands)
    requires ncols > 0 && HoldsPart(d, t, ncols, CBM, CBN, c0, z)
    ensures SumPart(d, t, ncols, c0, z, o, 0)
  {
    hide Elem, TileAt;
  }

  lemma SumStill(d0: seq<int>, d1: seq<int>, t: nat, t': nat, ncols: nat, c0: seq<int>, z: Block, o: Operands, k: nat)
    requires ncols > 0 && OnlyTile(d0, d1, t, CBM, CBN) && t' != t && SumPart(d0, t', ncols, c0, z, o, k)
    ensures SumPart(d1, t', ncols, c0, z, o, k)
  {
    hide Elem, OnlyTile, TileAt, Dot;
    var i0, j0 := (t' / ncols) * CBM, (t' % ncols) * CBN;
    forall i: nat, j: nat | i < CBM && j < CBN
      ensures Elem(d1, TileAt(t', CBM, CBN), i, j) == Elem(c0, z, i0 + i, j0 + j) + Dot(o, i0 + i, j0 + j, 0, k)
    {
      OtherTile(d0, d1, t, t', CBM, CBN, i, j);
    }
  }

  /** Packed operands give the same sums. */
  lemma {:induction false} DotPacked(o: Operands, q: Operands, i0: nat, j0: nat, k0: nat, i: nat, j: nat, k: nat,
      ta: nat, tb: nat)
    requires q.x == TileAt(ta, CBM, CBK) && q.y == TileAt(tb, CBK, CBN)
    requires Holds(q.a, ta, CBM, CBK, o.a, o.x, i0, k0) && Holds(q.b, tb, CBK, CBN, o.b, o.y, k0, j0)
    requires i < CBM && j < CBN && k <= CBK
    ensures Dot(q, i, j, 0, k) == Dot(o, i0 + i, j0 + j, k0, k0 + k)
  {
    hide Elem, TileAt;
    if k > 0 {
      DotPacked(o, q, i0, j0, k0, i, j, k - 1, ta, tb);
    }
  }

  lemma AddedOnlyTile(d0: seq<int>, d1: seq<int>, t: nat, q: Operands, p: nat)
    requires Added(d0, d1, TileAt(t, CBM, CBN), q, Rect(0, CBM, 0, CBN), 0, p)
    ensures OnlyTile(d0, d1, t, CBM, CBN)
  {
    hide Touches, TileAt, Elem, Dot;
  }

  /** `q` stands for the part of `o` with rows from `i0`, columns from `j0` and `p` inner indices
      from `k0`. */
  ghost predicate SameSums(o: Operands, q: Operands, i0: nat, j0: nat, k0: nat, p: nat) {
    forall i: nat, j: nat :: i < CBM && j < CBN ==> Dot(q, i, j, 0, p) == Dot(o, i0 + i, j0 + j, k0, k0 + p)
  }

  lemma PackedSums(o: Operands, q: Operands, i0: nat, j0: nat, k0: nat, ta: nat, tb: nat)
    requires q.x == TileAt(ta, CBM, CBK) && q.y == TileAt(tb, CBK, CBN)
    requires Holds(q.a, ta, CBM, CBK, o.a, o.x, i0, k0) && Holds(q.b, tb, CBK, CBN, o.b, o.y, k0, j0)
    ensures SameSums(o, q, i0, j0, k0, CBK)
  {
    hide Holds, TileAt, Dot;
    forall i: nat, j: nat | i < CBM && j < CBN
      ensures Dot(q, i, j, 0, CBK) == Dot(o, i0 + i, j0 + j, k0, k0 + CBK)
    {
      DotPacked(o, q, i0, j0, k0, i, j, CBK, ta, tb);
    }
  }

  lemma PartSums(o: Operands, i0: nat, j0: nat, k0: nat, p: nat)
    ensures SameSums(o, SubOperands(o, i0, j0, k0), i0, j0, k0, p)
  {
    hide Dot, SubOperands;
    forall i: nat, j: nat | i < CBM && j < CBN
      ensures Dot(SubOperands(o, i0, j0, k0), i, j, 0, p) == Dot(o, i0 + i, j0 + j, k0, k0 + p)
    {
      DotShift(o, i0, j0, k0, i, j, p);
    }
  }

  /** One more range of inner indices is added to the tile. */
  lemma SumMore(d0: seq<int>, d1: seq<int>, t: nat, c0: seq<int>, z: Block, o: Operands, q: Operands,
                i0: nat, j0: nat, k0: nat, p: nat)
    requires SumAt(d0, t, c0, z, o, i0, j0, k0)
    requires Added(d0, d1, TileAt(t, CBM, CBN), q, Rect(0, CBM, 0, CBN), 0, p)
    requires SameSums(o, q, i0, j0, k0, p)
    ensures SumAt(d1, t, c0, z, o, i0, j0, k0 + p)
  {
    hide Touches, TileAt, Elem, Dot;
    forall i: nat, j: nat | i < CBM && j < CBN
      ensures Elem(d1, TileAt(t, CBM, CBN), i, j) == Elem(c0, z, i0 + i, j0 + j) + Dot(o, i0 + i, j0 + j, 0, k0 + p)
    {
      assert InRect(Rect(0, CBM, 0, CBN), i, j);
      DotSplit(o, i0 + i, j0 + j, 0, k0, k0 + p);
    }
  }

  /** Adds the product of two packed tiles to a third. */
  method MultiplyTiles(a1: array<int>, ta: nat, na: nat, b1: array<int>, tb: nat, nb: nat, c1: array<int>, tc: nat,
                       nc: nat, ghost c0: seq<int>, ghost z: Block, ghost o: Operands,
                       ghost i0: nat, ghost j0: nat, ghost k0: nat)
    requires a1 != c1 && b1 != c1 && ta < na && tb < nb && tc < nc
    requires a1.Length == na * (CBM * CBK) && b1.Length == nb * (CBK * CBN) && c1.Length == nc * (CBM * CBN)
    requires Holds(a1[..], ta, CBM, CBK, o.a, o.x, i0, k0) && Holds(b1[..], tb, CBK, CBN, o.b, o.y, k0, j0)
    requires SumAt(c1[..], tc, c0, z, o, i0, j0, k0)
    modifies c1
    ensures SumAt(c1[..], tc, c0, z, o, i0, j0, k0 + CBK) && OnlyTile(old(c1[..]), c1[..], tc, CBM, CBN)
  {
    hide Fits, Holds, SumAt, OnlyTile, Added, TileAt, Dot;
    ghost var d0 := c1[..];
    TileFits(a1.Length, ta, na, CBM, CBK);
    TileFits(b1.Length, tb, nb, CBK, CBN);
    TileFits(c1.Length, tc, nc, CBM, CBN);
    TileWidth(tc, CBM, CBN);
    ghost var q := Operands(a1[..], TileAt(ta, CBM, CBK), b1[..], TileAt(tb, CBK, CBN));
    MmRb(CBM, CBN, CBK, a1, TileAt(ta, CBM, CBK), b1, TileAt(tb, CBK, CBN), c1, TileAt(tc, CBM, CBN));
    PackedSums(o, q, i0, j0, k0, ta, tb);
    SumMore(d0, c1[..], tc, c0, z, o, q, i0, j0, k0, CBK);
    AddedOnlyTile(d0, c1[..], tc, q, CBK);
  }

  /** Adds what is left of the inner indices, straight from the unpacked operands. */
  method MultiplyRest(m: nat, n: nat, p: nat, a: array<int>, x: Block, b: array<int>, y: Block,
                      c1: array<int>, tc: nat, nc: nat, i0: nat, j0: nat, k0: nat, ghost c0: seq<int>, ghost z: Block)
    requires a != c1 && b != c1 && tc < nc && c1.Length == nc * (CBM * CBN)
    requires Fits(a.Length, x, m, p) && Fits(b.Length, y, p, n) && i0 + CBM <= m && j0 + CBN <= n && k0 <= p
    requires SumAt(c1[..], tc, c0, z, Operands(a[..], x, b[..], y), i0, j0, k0)
    modifies c1
    ensures SumAt(c1[..], tc, c0, z, Operands(a[..], x, b[..], y), i0, j0, p)
    ensures OnlyTile(old(c1[..]), c1[..], tc, CBM, CBN)
  {
    hide Fits, SumAt, OnlyTile, Added, TileAt, Dot, Sub;
    ghost var d0 := c1[..];
    ghost var o := Operands(a[..], x, b[..], y);
    FitsSub(a.Length, x, m, p, i0, k0, CBM, p - k0);
    FitsSub(b.Length, y, p, n, k0, j0, p - k0, CBN);
    TileFits(c1.Length, tc, nc, CBM, CBN);
    TileWidth(tc, CBM, CBN);
    MmRb(CBM, CBN, p - k0, a, Sub(x, i0, k0), b, Sub(y, k0, j0), c1, TileAt(tc, CBM, CBN));
    ghost var q := SubOperands(o, i0, j0, k0);
    PartSums(o, i0, j0, k0, p - k0);
    SumMore(d0, c1[..], tc, c0, z, o, q, i0, j0, k0, p - k0);
    AddedOnlyTile(d0, c1[..], tc, q, p - k0);
  }

  /** All the inner indices for one tile of the packed result. */
  method FinishTile(m: nat, n: nat, p: nat, a: array<int>, x: Block, b: array<int>, y: Block,
                    a1: array<int>, b1: array<int>, c1: array<int>, i: nat, j: nat, nmb: nat, nnb: nat, npb: nat,
                    ghost c0: seq<int>, ghost z: Block)
    requires a != c1 && b != c1 && a1 != c1 && b1 != c1
    requires Fits(a.Length, x, m, p) && Fits(b.Length, y, p, n)
    requires nmb * CBM <= m && nnb * CBN <= n && npb * CBK <= p && i < nmb && j < nnb
    requires a1.Length == (nmb * npb) * (CBM * CBK) && b1.Length == (npb * nnb) * (CBK * CBN)
    requires c1.Length == (nmb * nnb) * (CBM * CBN)
    requires npb > 0 ==> forall t: nat :: t < nmb * npb ==> HoldsPart(a1[..], t, npb, CBM, CBK, a[..], x)
    requires forall t: nat :: t < npb * nnb ==> HoldsPart(b1[..], t, nnb, CBK, CBN, b[..], y)
    requires SumPart(c1[..], nnb * i + j, nnb, c0, z, Operands(a[..], x, b[..], y), 0)
    modifies c1
    ensures SumPart(c1[..], nnb * i + j, nnb, c0, z, Operands(a[..], x, b[..], y), p)
    ensures OnlyTile(old(c1[..]), c1[..], nnb * i + j, CBM, CBN)
  {
    hide Fits, Holds, SumAt, OnlyTile, TileAt;
    ghost var o, d0 := Operands(a[..], x, b[..], y), c1[..];
    var t := nnb * i + j;
    SlotBound(nmb, nnb, i, j);
    RowAndColumn(nnb, i, j);
    OnlyTileNothing(d0, t);
    var k := 0;
    while k < npb
      invariant k <= npb && o == Operands(a[..], x, b[..], y)
      invariant npb > 0 ==> forall t: nat :: t < nmb * npb ==> HoldsPart(a1[..], t, npb, CBM, CBK, a[..], x)
      invariant forall t: nat :: t < npb * nnb ==> HoldsPart(b1[..], t, nnb, CBK, CBN, b[..], y)
      invariant SumAt(c1[..], t, c0, z, o, i * CBM, j * CBN, k * CBK) && OnlyTile(d0, c1[..], t, CBM, CBN)
    {
      ghost var d1 := c1[..];
      SlotBound(nmb, npb, i, k);
      SlotBound(npb, nnb, k, j);
      RowAndColumn(npb, i, k);
      RowAndColumn(nnb, k, j);
      assert HoldsPart(a1[..], npb * i + k, npb, CBM, CBK, a[..], x);
      assert HoldsPart(b1[..], nnb * k + j, nnb, CBK, CBN, b[..], y);
      MultiplyTiles(a1, npb * i + k, nmb * npb, b1, nnb * k + j, npb * nnb, c1, t, nmb * nnb,
                    c0, z, o, i * CBM, j * CBN, k * CBK);
      OnlyTileTwice(d0, d1, c1[..], t, CBM, CBN);
      k := k + 1;
    }
    var pb := npb * CBK;
    if pb < p {
      ghost var d1 := c1[..];
      TileInside(nmb, CBM, m, i);
      TileInside(nnb, CBN, n, j);
      MultiplyRest(m, n, p, a, x, b, y, c1, t, nmb * nnb, i * CBM, j * CBN, pb, c0, z);
      OnlyTileTwice(d0, d1, c1[..], t, CBM, CBN);
    }
  }

  lemma OnlyTileNothing(d: seq<int>, t: nat)
    ensures OnlyTile(d, d, t, CBM, CBN)
  {
  }

  ghost predicate TileState(d: seq<int>, t: nat, done: nat, ncols: nat, c0: seq<int>, z: Block, o: Operands, p: nat)
    requires ncols > 0
  {
    SumPart(d, t, ncols, c0, z, o, if t < done then p else 0)
  }

  /** The first `done` tiles of the packed result are finished, the others as they were. */
  ghost predicate Progress(d: seq<int>, done: nat, total: nat, ncols: nat, c0: seq<int>, z: Block, o: Operands,
      p: nat) {
    ncols > 0 ==> forall t: nat :: t < total ==> TileState(d, t, done, ncols, c0, z, o, p)
  }

  lemma ProgressStep(d0: seq<int>, d1: seq<int>, t: nat, total: nat, ncols: nat, c0: seq<int>, z: Block, o: Operands,
      p: nat)
    requires ncols > 0 && Progress(d0, t, total, ncols, c0, z, o, p) && OnlyTile(d0, d1, t, CBM, CBN)
    requires SumPart(d1, t, ncols, c0, z, o, p)
    ensures Progress(d1, t + 1, total, ncols, c0, z, o, p)
  {
    hide SumPart, OnlyTile;
    var next := t + 1;
    forall t': nat | t' < total
      ensures TileState(d1, t', next, ncols, c0, z, o, p)
    {
      assert TileState(d0, t', t, ncols, c0, z, o, p);
      if t' != t { SumStill(d0, d1, t, t', ncols, c0, z, o, if t' < t then p else 0); }
    }
  }

  method FinishTileRow(m: nat, n: nat, p: nat, a: array<int>, x: Block, b: array<int>, y: Block,
                       a1: array<int>, b1: array<int>, c1: array<int>, i: nat, nmb: nat, nnb: nat, npb: nat,
                       ghost c0: seq<int>, ghost z: Block)
    requires a != c1 && b != c1 && a1 != c1 && b1 != c1
    requires Fits(a.Length, x, m, p) && Fits(b.Length, y, p, n)
    requires nmb * CBM <= m && nnb * CBN <= n && npb * CBK <= p && i < nmb
    requires a1.Length == (nmb * npb) * (CBM * CBK) && b1.Length == (npb * nnb) * (CBK * CBN)
    requires c1.Length == (nmb * nnb) * (CBM * CBN)
    requires npb > 0 ==> forall t: nat :: t < nmb * npb ==> HoldsPart(a1[..], t, npb, CBM, CBK, a[..], x)
    requires nnb > 0 ==> forall t: nat :: t < npb * nnb ==> HoldsPart(b1[..], t, nnb, CBK, CBN, b[..], y)
    requires Progress(c1[..], nnb * i, nmb * nnb, nnb, c0, z, Operands(a[..], x, b[..], y), p)
    modifies c1
    ensures Progress(c1[..], nnb * (i + 1), nmb * nnb, nnb, c0, z, Operands(a[..], x, b[..], y), p)
  {
    hide Fits, HoldsPart, SumPart, OnlyTile, Progress;
    ghost var o := Operands(a[..], x, b[..], y);
    var j := 0;
    while j < nnb
      invariant j <= nnb && o == Operands(a[..], x, b[..], y)
      invariant npb > 0 ==> forall t: nat :: t < nmb * npb ==> HoldsPart(a1[..], t, npb, CBM, CBK, a[..], x)
      invariant nnb > 0 ==> forall t: nat :: t < npb * nnb ==> HoldsPart(b1[..], t, nnb, CBK, CBN, b[..], y)
      invariant Progress(c1[..], nnb * i + j, nmb * nnb, nnb, c0, z, o, p)
    {
      ghost var d0 := c1[..];
      SlotBound(nmb, nnb, i, j);
      NotYetDone(d0, nnb * i + j, nmb * nnb, nnb, c0, z, o, p);
      FinishTile(m, n, p, a, x, b, y, a1, b1, c1, i, j, nmb, nnb, npb, c0, z);
      ProgressStep(d0, c1[..], nnb * i + j, nmb * nnb, nnb, c0, z, o, p);
      j := j + 1;
    }
    NextRow(nnb, i);
  }

  lemma NextRow(ncols: nat, i: nat)
    ensures ncols * (i + 1) == ncols * i + ncols
  {
  }

  lemma NotYetDone(d: seq<int>, t: nat, total: nat, ncols: nat, c0: seq<int>, z: Block, o: Operands, p: nat)
    requires ncols > 0 && t < total && Progress(d, t, total, ncols, c0, z, o, p)
    ensures SumPart(d, t, ncols, c0, z, o, 0)
  {
    hide SumPart;
    assert TileState(d, t, t, ncols, c0, z, o, p);
  }

  function Min(x: nat, y: nat): nat { if x < y then x else y }

  /** A strip of the result at the edge, block by block along the inner dimension, unpacked. */
  method AddStrip(m: nat, n: nat, p: nat, a: array<int>, x: Block, b: array<int>, y: Block, c: array<int>, z: Block,
                  i0: nat, j0: nat, m': nat, n': nat)
    requires Fits(a.Length, x, m, p) && Fits(b.Length, y, p, n) && Fits(c.Length, z, m, n)
    requires n <= z.ld && a != c && b != c && i0 + m' <= m && j0 + n' <= n
    modifies c
    ensures Added(old(c[..]), c[..], z, Operands(a[..], x, b[..], y), Rect(i0, i0 + m', j0, j0 + n'), 0, p)
  {
    hide Added, Fits, Dot, Index, Sub, SubOperands;
    ghost var o, c0 := Operands(a[..], x, b[..], y), c[..];
    ghost var r := Rect(i0, i0 + m', j0, j0 + n');
    Nothing(c0, z, o, r, 0, 0);
    var k := 0;
    while k < p
      invariant o == Operands(a[..], x, b[..], y)
      invariant Added(c0, c[..], z, o, r, 0, Min(k, p))
    {
      ghost var c1 := c[..];
      var p' := Min(p - k, CBK);
      FitsSub(a.Length, x, m, p, i0, k, m', p');
      FitsSub(b.Length, y, p, n, k, j0, p', n');
      FitsSub(c.Length, z, m, n, i0, j0, m', n');
      SubWidth(z, i0, j0);
      MmRb(m', n', p', a, Sub(x, i0, k), b, Sub(y, k, j0), c, Sub(z, i0, j0));
      SubOperandsAre(o, i0, j0, k);
      Lift(c1, c[..], z, o, i0, j0, k, m', n', p');
      JoinInner(c0, c1, c[..], z, o, r, 0, k, k + p');
      k := k + CBK;
    }
  }

  lemma SubWidth(z: Block, i0: nat, j0: nat)
    ensures Sub(z, i0, j0).ld == z.ld
  {
  }

  lemma SubOperandsAre(o: Operands, i0: nat, j0: nat, k0: nat)
    ensures SubOperands(o, i0, j0, k0) == Operands(o.a, Sub(o.x, i0, k0), o.b, Sub(o.y, k0, j0))
  {
  }

  /** The rows below the last full row of tiles. */
  method AddBottom(m: nat, n: nat, p: nat, a: array<int>, x: Block, b: array<int>, y: Block, c: array<int>, z: Block,
      mb: nat)
    requires Fits(a.Length, x, m, p) && Fits(b.Length, y, p, n) && Fits(c.Length, z, m, n)
    requires n <= z.ld && a != c && b != c && mb <= m
    modifies c
    ensures Added(old(c[..]), c[..], z, Operands(a[..], x, b[..], y), Rect(mb, m, 0, n), 0, p)
  {
    hide Added, Fits;
    ghost var o, c0 := Operands(a[..], x, b[..], y), c[..];
    Nothing(c0, z, o, Rect(mb, m, 0, 0), 0, p);
    var j := 0;
    while j < n
      invariant o == Operands(a[..], x, b[..], y)
      invariant Added(c0, c[..], z, o, Rect(mb, m, 0, Min(j, n)), 0, p)
    {
      ghost var c1 := c[..];
      AddStrip(m, n, p, a, x, b, y, c, z, mb, j, m - mb, Min(n - j, CBN));
      JoinColumns(c0, c1, c[..], z, o, mb, m, 0, j, j + Min(n - j, CBN), p);
      j := j + CBN;
    }
  }

  /** A finished tile goes back to where it belongs. */
  lemma Unpacked(cA: seq<int>, cB: seq<int>, d: seq<int>, t: nat, c0: seq<int>, z: Block, o: Operands,
                 i0: nat, j0: nat, p: nat)
    requires Copied(cA, cB, Sub(z, i0, j0), d, TileAt(t, CBM, CBN), Rect(0, CBM, 0, CBN))
    requires SumAt(d, t, c0, z, o, i0, j0, p)
    requires forall i: nat, j: nat :: InRect(Rect(i0, i0 + CBM, j0, j0 + CBN), i, j) ==>
      Elem(cA, z, i, j) == Elem(c0, z, i, j)
    ensures Added(cA, cB, z, o, Rect(i0, i0 + CBM, j0, j0 + CBN), 0, p)
  {
    hide TileAt, Dot, Sub, Index, Get, Touches;
    var r := Rect(i0, i0 + CBM, j0, j0 + CBN);
    forall i: nat, j: nat | InRect(r, i, j)
      ensures Elem(cB, z, i, j) == Elem(cA, z, i, j) + Dot(o, i, j, 0, p)
    {
      var i', j' := i - i0, j - j0;
      SubIndex(z, i0, j0, i', j');
      assert InRect(Rect(0, CBM, 0, CBN), i', j');
      assert i0 + i' == i && j0 + j' == j;
      assert Elem(cB, Sub(z, i0, j0), i', j') == Elem(d, TileAt(t, CBM, CBN), i', j');
    }
    forall k: nat | k < |cA| && !Touches(z, r, k)
      ensures cB[k] == cA[k]
    {
      if Touches(Sub(z, i0, j0), Rect(0, CBM, 0, CBN), k) { TouchesLift(z, i0, j0, CBM, CBN, k); }
    }
  }

  /** The unpacked tiles do not meet the area that has already been computed. */
  lemma StillOld(c0: seq<int>, cX: seq<int>, cY: seq<int>, cR: seq<int>, cA: seq<int>, z: Block, o: Operands,
                 mb: nat, m: nat, nb: nat, n: nat, p: nat, i0: nat, j0: nat, i: nat, j: nat)
    requires Added(c0, cX, z, o, Rect(0, mb, nb, n), 0, p) && Added(cX, cY, z, o, Rect(mb, m, 0, n), 0, p)
    requires Added(cY, cR, z, o, Rect(0, i0, 0, nb), 0, p) && Added(cR, cA, z, o, Rect(i0, i0 + CBM, 0, j0), 0, p)
    requires i0 <= i < mb && j0 <= j < nb && nb <= n <= z.ld
    ensures Elem(cA, z, i, j) == Elem(c0, z, i, j)
  {
    hide Added, Elem;
    Untouched(c0, cX, z, o, Rect(0, mb, nb, n), 0, p, i, j);
    Untouched(cX, cY, z, o, Rect(mb, m, 0, n), 0, p, i, j);
    Untouched(cY, cR, z, o, Rect(0, i0, 0, nb), 0, p, i, j);
    Untouched(cR, cA, z, o, Rect(i0, i0 + CBM, 0, j0), 0, p, i, j);
  }

  method UnpackTile(c: array<int>, z: Block, c1: array<int>, i: nat, j: nat, nmb: nat, nnb: nat, m: nat, n: nat,
                    ghost p: nat, ghost o: Operands, ghost c0: seq<int>, ghost cX: seq<int>, ghost cY: seq<int>,
                    ghost cR: seq<int>)
    requires c != c1 && c1.Length == (nmb * nnb) * (CBM * CBN) && Fits(c.Length, z, m, n) && n <= z.ld
    requires nmb * CBM <= m && nnb * CBN <= n && i < nmb && j < nnb
    requires SumPart(c1[..], nnb * i + j, nnb, c0, z, o, p)
    requires Added(c0, cX, z, o, Rect(0, nmb * CBM, nnb * CBN, n), 0, p)
    requires Added(cX, cY, z, o, Rect(nmb * CBM, m, 0, n), 0, p)
    requires Added(cY, cR, z, o, Rect(0, i * CBM, 0, nnb * CBN), 0, p)
    requires Added(cR, c[..], z, o, Rect(i * CBM, i * CBM + CBM, 0, j * CBN), 0, p)
    modifies c
    ensures Added(cR, c[..], z, o, Rect(i * CBM, i * CBM + CBM, 0, (j + 1) * CBN), 0, p)
  {
    hide Added, Fits, TileAt, Elem, SumAt, Copied, Sub;
    ghost var cA := c[..];
    var t, i0, j0 := nnb * i + j, i * CBM, j * CBN;
    RowAndColumn(nnb, i, j);
    SlotBound(nmb, nnb, i, j);
    TileFits(c1.Length, t, nmb * nnb, CBM, CBN);
    TileInside(nmb, CBM, m, i);
    TileInside(nnb, CBN, n, j);
    FitsSub(c.Length, z, m, n, i0, j0, CBM, CBN);
    SubWidth(z, i0, j0);
    Repack(c, Sub(z, i0, j0), c1, TileAt(t, CBM, CBN), CBM, CBN);
    forall i': nat, j': nat | InRect(Rect(i0, i0 + CBM, j0, j0 + CBN), i', j')
      ensures Elem(cA, z, i', j') == Elem(c0, z, i', j')
    {
      StillOld(c0, cX, cY, cR, cA, z, o, nmb * CBM, m, nnb * CBN, n, p, i0, j0, i', j');
    }
    Unpacked(cA, c[..], c1[..], t, c0, z, o, i0, j0, p);
    JoinColumns(cR, cA, c[..], z, o, i0, i0 + CBM, 0, j0, j0 + CBN, p);
  }

  method UnpackAll(c: array<int>, z: Block, c1: array<int>, nmb: nat, nnb: nat, m: nat, n: nat,
                   ghost p: nat, ghost o: Operands, ghost c0: seq<int>, ghost cX: seq<int>)
    requires c != c1 && c1.Length == (nmb * nnb) * (CBM * CBN) && Fits(c.Length, z, m, n) && n <= z.ld
    requires nmb * CBM <= m && nnb * CBN <= n
    requires Progress(c1[..], nnb * nmb, nmb * nnb, nnb, c0, z, o, p)
    requires Added(c0, cX, z, o, Rect(0, nmb * CBM, nnb * CBN, n), 0, p)
    requires Added(cX, c[..], z, o, Rect(nmb * CBM, m, 0, n), 0, p)
    modifies c
    ensures Added(old(c[..]), c[..], z, o, Rect(0, nmb * CBM, 0, nnb * CBN), 0, p)
  {
    hide Added, Fits, Progress, SumPart;
    ghost var cY, d := c[..], c1[..];
    Nothing(cY, z, o, Rect(0, 0, 0, nnb * CBN), 0, p);
    var i := 0;
    while i < nmb
      invariant i <= nmb && c1[..] == d
      invariant Added(cY, c[..], z, o, Rect(0, i * CBM, 0, nnb * CBN), 0, p)
    {
      ghost var cR := c[..];
      Nothing(cR, z, o, Rect(i * CBM, i * CBM + CBM, 0, 0), 0, p);
      var j := 0;
      while j < nnb
        invariant j <= nnb && c1[..] == d
        invariant Added(cR, c[..], z, o, Rect(i * CBM, i * CBM + CBM, 0, j * CBN), 0, p)
      {
        SlotBound(nmb, nnb, i, j);
        AllDone(d, nnb * i + j, nmb, nnb, c0, z, o, p);
        UnpackTile(c, z, c1, i, j, nmb, nnb, m, n, p, o, c0, cX, cY, cR);
        j := j + 1;
      }
      JoinRows(cY, cR, c[..], z, o, 0, i * CBM, i * CBM + CBM, 0, nnb * CBN, p);
      i := i + 1;
    }
  }

  lemma AllDone(d: seq<int>, t: nat, nmb: nat, nnb: nat, c0: seq<int>, z: Block, o: Operands, p: nat)
    requires nnb > 0 && t < nmb * nnb && Progress(d, nnb * nmb, nmb * nnb, nnb, c0, z, o, p)
    ensures SumPart(d, t, nnb, c0, z, o, p)
  {
    hide SumPart;
    assert TileState(d, t, nnb * nmb, nnb, c0, z, o, p);
  }

  /** The three areas together are the whole matrix. */
  lemma Assemble(c0: seq<int>, cX: seq<int>, cY: seq<int>, cZ: seq<int>, z: Block, o: Operands,
                 mb: nat, m: nat, nb: nat, n: nat, p: nat)
    requires Added(c0, cX, z, o, Rect(0, mb, nb, n), 0, p) && Added(cX, cY, z, o, Rect(mb, m, 0, n), 0, p)
    requires Added(cY, cZ, z, o, Rect(0, mb, 0, nb), 0, p)
    requires mb <= m && nb <= n <= z.ld
    ensures Added(c0, cZ, z, o, Rect(0, m, 0, n), 0, p)
  {
    forall i: nat, j: nat | InRect(Rect(0, m, 0, n), i, j)
      ensures Elem(cZ, z, i, j) == Elem(c0, z, i, j) + Dot(o, i, j, 0, p)
    {
      AssembleElem(c0, cX, cY, cZ, z, o, mb, m, nb, n, p, i, j);
    }
    forall k: nat | k < |c0| && !Touches(z, Rect(0, m, 0, n), k)
      ensures cZ[k] == c0[k]
    {
      SmallerRect(z, Rect(0, m, 0, n), Rect(0, mb, nb, n), k);
      SmallerRect(z, Rect(0, m, 0, n), Rect(mb, m, 0, n), k);
      SmallerRect(z, Rect(0, m, 0, n), Rect(0, mb, 0, nb), k);
    }
  }

  lemma SmallerRect(z: Block, r: Rect, r': Rect, k: nat)
    requires !Touches(z, r, k) && forall i: nat, j: nat :: InRect(r', i, j) ==> InRect(r, i, j)
    ensures !Touches(z, r', k)
  {
    hide Index;
  }

  lemma AssembleElem(c0: seq<int>, cX: seq<int>, cY: seq<int>, cZ: seq<int>, z: Block, o: Operands,
                     mb: nat, m: nat, nb: nat, n: nat, p: nat, i: nat, j: nat)
    requires Added(c0, cX, z, o, Rect(0, mb, nb, n), 0, p) && Added(cX, cY, z, o, Rect(mb, m, 0, n), 0, p)
    requires Added(cY, cZ, z, o, Rect(0, mb, 0, nb), 0, p)
    requires mb <= m && nb <= n <= z.ld && i < m && j < n
    ensures Elem(cZ, z, i, j) == Elem(c0, z, i, j) + Dot(o, i, j, 0, p)
  {
    hide Elem, Dot, Touches;
    if i >= mb {
      Untouched(c0, cX, z, o, Rect(0, mb, nb, n), 0, p, i, j);
      Untouched(cY, cZ, z, o, Rect(0, mb, 0, nb), 0, p, i, j);
      assert InRect(Rect(mb, m, 0, n), i, j);
    } else {
      Untouched(cX, cY, z, o, Rect(mb, m, 0, n), 0, p, i, j);
      if j >= nb {
        Untouched(cY, cZ, z, o, Rect(0, mb, 0, nb), 0, p, i, j);
        assert InRect(Rect(0, mb, nb, n), i, j);
      } else {
        Untouched(c0, cX, z, o, Rect(0, mb, nb, n), 0, p, i, j);
        assert InRect(Rect(0, mb, 0, nb), i, j);
      }
    }
  }

  lemma Area(r: nat, s: nat, bm: nat, bn: nat)
    ensures (r * bm) * (s * bn) == (r * s) * (bm * bn)
  {
    Associate(r, bm, s * bn);
    Associate(s, bm, bn);
    Associate(r, s, bm * bn);
    assert bm * (s * bn) == s * (bm * bn);
  }

  lemma Associate(x: int, y: int, w: int)
    ensures (x * y) * w == x * (y * w)
    ensures x * (y * w) == y * (x * w)
  {
  }

  method MmCb(m: nat, n: nat, p: nat, a: array<int>, x: Block, b: array<int>, y: Block, c: array<int>, z: Block)
    requires Fits(a.Length, x, m, p) && Fits(b.Length, y, p, n) && Fits(c.Length, z, m, n)
    requires n <= z.ld && a != c && b != c
    modifies c
    ensures Added(old(c[..]), c[..], z, Operands(a[..], x, b[..], y), Rect(0, m, 0, n), 0, p)
  {
    hide Added, Fits, HoldsPart, Progress;
    ghost var o, c0 := Operands(a[..], x, b[..], y), c[..];
    var nmb, nnb, npb := m / CBM, n / CBN, p / CBK;
    var mb, nb, pb := nmb * CBM, nnb * CBN, npb * CBK;
    Area(nmb, npb, CBM, CBK);
    Area(npb, nnb, CBK, CBN);
    Area(nmb, nnb, CBM, CBN);
    var a1 := new int[mb * pb];
    var b1 := new int[pb * nb];
    var c1 := new int[mb * nb];
    Pack(a1, nmb, npb, CBM, CBK, a, x, m, p);
    Pack(b1, npb, nnb, CBK, CBN, b, y, p, n);
    Pack(c1, nmb, nnb, CBM, CBN, c, z, m, n);
    assert c[..] == c0;
    ProgressStart(c1[..], nmb * nnb, nnb, c0, z, o, p);
    ComputeTiles(m, n, p, a, x, b, y, c, z, a1, b1, c1, nmb, nnb, npb);
    ghost var cX := c[..];
    if mb < m {
      AddBottom(m, n, p, a, x, b, y, c, z, mb);
    } else {
      Nothing(cX, z, o, Rect(mb, m, 0, n), 0, p);
    }
    ghost var cY := c[..];
    UnpackAll(c, z, c1, nmb, nnb, m, n, p, o, c0, cX);
    Assemble(c0, cX, cY, c[..], z, o, mb, m, nb, n, p);
  }

  lemma ProgressStart(d: seq<int>, total: nat, ncols: nat, c0: seq<int>, z: Block, o: Operands, p: nat)
    requires ncols > 0 ==> forall t: nat :: t < total ==> HoldsPart(d, t, ncols, CBM, CBN, c0, z)
    ensures Progress(d, 0, total, ncols, c0, z, o, p)
  {
    hide SumPart, HoldsPart;
    if ncols > 0 {
      forall t: nat | t < total
        ensures TileState(d, t, 0, ncols, c0, z, o, p)
      {
        HoldsSum(d, t, ncols, c0, z, o);
      }
    }
  }

  /** Row by row of tiles: the packed result, and the columns beyond the last full tile. */
  method ComputeTiles(m: nat, n: nat, p: nat, a: array<int>, x: Block, b: array<int>, y: Block, c: array<int>, z: Block,
                      a1: array<int>, b1: array<int>, c1: array<int>, nmb: nat, nnb: nat, npb: nat)
    requires Fits(a.Length, x, m, p) && Fits(b.Length, y, p, n) && Fits(c.Length, z, m, n)
    requires n <= z.ld && a != c && b != c && c != c1 && a1 != c && b1 != c
    requires a != c1 && b != c1 && a1 != c1 && b1 != c1
    requires nmb * CBM <= m && nnb * CBN <= n && npb * CBK <= p
    requires a1.Length == (nmb * npb) * (CBM * CBK) && b1.Length == (npb * nnb) * (CBK * CBN)
    requires c1.Length == (nmb * nnb) * (CBM * CBN)
    requires npb > 0 ==> forall t: nat :: t < nmb * npb ==> HoldsPart(a1[..], t, npb, CBM, CBK, a[..], x)
    requires nnb > 0 ==> forall t: nat :: t < npb * nnb ==> HoldsPart(b1[..], t, nnb, CBK, CBN, b[..], y)
    requires Progress(c1[..], 0, nmb * nnb, nnb, c[..], z, Operands(a[..], x, b[..], y), p)
    modifies c, c1
    ensures Added(old(c[..]), c[..], z, Operands(a[..], x, b[..], y), Rect(0, nmb * CBM, nnb * CBN, n), 0, p)
    ensures Progress(c1[..], nnb * nmb, nmb * nnb, nnb, old(c[..]), z, Operands(a[..], x, b[..], y), p)
  {
    hide Added, Fits, HoldsPart, Progress;
    ghost var o, c0, a1s, b1s := Operands(a[..], x, b[..], y), c[..], a1[..], b1[..];
    var nb := nnb * CBN;
    Nothing(c0, z, o, Rect(0, 0, nb, n), 0, p);
    var i := 0;
    while i < nmb
      invariant i <= nmb && o == Operands(a[..], x, b[..], y) && a1[..] == a1s && b1[..] == b1s
      invariant Progress(c1[..], nnb * i, nmb * nnb, nnb, c0, z, o, p)
      invariant Added(c0, c[..], z, o, Rect(0, i * CBM, nb, n), 0, p)
    {
      FinishTileRow(m, n, p, a, x, b, y, a1, b1, c1, i, nmb, nnb, npb, c0, z);
      ghost var cR := c[..];
      TileInside(nmb, CBM, m, i);
      if nb < n {
        AddStrip(m, n, p, a, x, b, y, c, z, i * CBM, nb, CBM, n - nb);
      } else {
        Nothing(cR, z, o, Rect(i * CBM, i * CBM + CBM, nb, n), 0, p);
      }
      JoinRows(c0, cR, c[..], z, o, 0, i * CBM, i * CBM + CBM, nb, n, p);
      i := i + 1;
    }
  }

  /** The product is added to `c`, whichever way it is computed, and nothing else changes. */
  method Mm(m: nat, n: nat, p: nat, a: array<int>, x: Block, b: array<int>, y: Block, c: array<int>, z: Block)
    requires Fits(a.Length, x, m, p) && Fits(b.Length, y, p, n) && Fits(c.Length, z, m, n)
    requires n <= z.ld && a != c && b != c
    modifies c
    ensures Added(old(c[..]), c[..], z, Operands(a[..], x, b[..], y), Rect(0, m, 0, n), 0, p)
  {
    if m <= 2 * CBM && n <= 2 * CBN && p <= 2 * CBK {
      MmRb(m, n, p, a, x, b, y, c, z);
    } else {
      MmCb(m, n, p, a, x, b, y, c, z);
    }
  }

  /** What `Added` comes to for a whole product: it determines the result, so the blocked product
      leaves exactly what the triple loop leaves. */
  lemma SameAsNaive(c0: seq<int>, c1: seq<int>, c2: seq<int>, z: Block, o: Operands, m: nat, n: nat, p: nat)
    requires Fits(|c0|, z, m, n)
    requires Added(c0, c1, z, o, Rect(0, m, 0, n), 0, p) && Added(c0, c2, z, o, Rect(0, m, 0, n), 0, p)
    ensures c1 == c2
  {
    hide Dot, Index, Fits;
    forall k: nat | k < |c0|
      ensures c1[k] == c2[k]
    {
      var r := Rect(0, m, 0, n);
      if Touches(z, r, k) {
        var i: nat, j: nat :| InRect(r, i, j) && Index(z, i, j) == k;
        assert Elem(c1, z, i, j) == Elem(c2, z, i, j);
      }
    }
  }
}
