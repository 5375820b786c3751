/** 64-bit machine words: masks, naturally aligned blocks and unsigned order. The small
    functions name single word operations so that proofs can treat them as opaque. */
module Words {
  predicate Leq(x: bv64, y: bv64) { x <= y }

  function Keep(x: bv64, mask: bv64): bv64 { x & mask }

  /** The two words agree on the bits of `mask`. */
  predicate Agree(x: bv64, y: bv64, mask: bv64) { (x ^ y) & mask == 0 }

  lemma AgreeKeep(x: bv64, y: bv64, m: bv64)
    requires (x ^ y) & m == 0
    ensures x & m == y & m
  {
  }

  lemma KeepAgree(x: bv64, y: bv64, m: bv64)
    requires x & m == y & m
    ensures (x ^ y) & m == 0
  {
  }

  lemma AgreeIsKeep(x: bv64, y: bv64, m: bv64)
    ensures Agree(x, y, m) <==> Keep(x, m) == Keep(y, m)
  {
    if Agree(x, y, m) {
      AgreeKeep(x, y, m);
    } else if Keep(x, m) == Keep(y, m) {
      KeepAgree(x, y, m);
    }
  }

  lemma HalfMonotone(x: bv64, y: bv64)
    requires Leq(x, y)
    ensures Leq(Half(x), Half(y))
  {
  }

  predicate Same(x: bv64, y: bv64) { x == y }

  lemma SameIsEqual(x: bv64, y: bv64)
    requires Same(x, y)
    ensures x == y
  {
  }

  predicate Zero(x: bv64) { x == 0 }

  lemma HalfDecides(x: bv64, y: bv64)
    requires Same(Half(x), Half(y)) && Leq(x, y) && Leq(y, x)
    ensures Same(x, y)
  {
  }

  lemma HalfShrinks(x: bv64)
    requires !Zero(x)
    ensures Half(x) < x
  {
  }

  lemma LeqZero(x: bv64, y: bv64)
    requires Leq(x, y) && Zero(y)
    ensures Same(x, y)
  {
  }

  /** Antisymmetry of the unsigned order, one bit at a time. */
  lemma {:induction false} Antisymmetric(x: bv64, y: bv64)
    requires Leq(x, y) && Leq(y, x)
    ensures Same(y, x)
    decreases x
  {
    hide *;
    if Zero(x) {
      LeqZero(y, x);
    } else {
      HalfShrinks(x);
      HalfMonotone(x, y);
      HalfMonotone(y, x);
      Antisymmetric(Half(x), Half(y));
      HalfDecides(y, x);
    }
  }

  lemma HalfOrder(x: bv64, y: bv64)
    requires !Leq(x, y)
    ensures Leq(Half(y), Half(x))
  {
    hide *;
    Total(x, y);
    HalfMonotone(y, x);
  }

  lemma OnlyParityDiffers(x: bv64, y: bv64)
    requires !Leq(x, y) && Leq(Half(x), Half(y))
    ensures Odd(x) && !Odd(y)
  {
  }

  lemma AboveIsPositive(x: bv64, y: bv64)
    requires !Leq(x, y)
    ensures !Zero(x)
  {
  }

  lemma OddUp(x: bv64, y: bv64)
    requires Same(Half(x), Half(y)) && Odd(x) && Leq(x, y)
    ensures Odd(y)
  {
  }

  /** Transitivity of the unsigned order, one bit at a time. */
  lemma {:induction false} Transitive(x: bv64, y: bv64, z: bv64)
    requires Leq(x, y) && Leq(y, z)
    ensures Leq(x, z)
    decreases x
  {
    hide *;
    if !Leq(x, z) {
      HalfOrder(x, z);
      AboveIsPositive(x, z);
      HalfShrinks(x);
      HalfMonotone(x, y);
      HalfMonotone(y, z);
      Transitive(Half(x), Half(y), Half(z));
      OnlyParityDiffers(x, z);
      Antisymmetric(Half(z), Half(x));
      SameIsEqual(Half(x), Half(z));
      Antisymmetric(Half(y), Half(x));
      Antisymmetric(Half(z), Half(y));
      OddUp(x, y);
      OddUp(y, z);
    }
  }

  function Succ(x: bv64): bv64 { x + 1 }

  function Twice(h: bv64): bv64 { h << 1 }

  lemma TwiceBelow(x: bv64, h: bv64)
    requires Leq(h, Half(x))
    ensures Leq(Twice(h), x)
  {
  }

  lemma PushOneBelow(x: bv64, h: bv64)
    requires Odd(x) && Leq(h, Half(x))
    ensures Leq(PushOne(h), x)
  {
  }

  lemma HalfHasSucc(y: bv64)
    ensures !Zero(Succ(Half(y)))
  {
  }

  lemma RoomBelowHalf(x: bv64, y: bv64)
    requires !Leq(Half(x), Half(y))
    ensures Leq(PushOne(Half(y)), Twice(Succ(Half(y))))
  {
  }

  lemma EvenSucc(y: bv64)
    requires !Odd(y)
    ensures PushOne(Half(y)) == Succ(y)
  {
  }

  lemma OddSucc(y: bv64)
    requires Odd(y) && !Zero(Succ(y))
    ensures Twice(Succ(Half(y))) == Succ(y)
  {
  }

  /** There is no word strictly between a word and its successor. */
  lemma {:induction false} Discrete(x: bv64, y: bv64)
    requires !Leq(x, y) && !Zero(Succ(y))
    ensures Leq(Succ(y), x)
    decreases x
  {
    hide *;
    HalfOrder(x, y);
    AboveIsPositive(x, y);
    HalfShrinks(x);
    HalfHasSucc(y);
    if Leq(Half(x), Half(y)) {
      OnlyParityDiffers(x, y);
      PushOneBelow(x, Half(y));
      EvenSucc(y);
    } else {
      Discrete(Half(x), Half(y));
      TwiceBelow(x, Succ(Half(y)));
      if Odd(y) {
        OddSucc(y);
      } else {
        EvenSucc(y);
        RoomBelowHalf(x, y);
        Transitive(Succ(y), Twice(Succ(Half(y))), x);
      }
    }
  }

  // ---------------------------------------------------------------------------------------
  // Contiguous ones at the low end

  predicate Odd(a: bv64) { a & 1 != 0 }

  function Half(a: bv64): bv64 { a >> 1 }

  function PushOne(t: bv64): bv64 { (t << 1) | 1 }

  /** The contiguous ones at the low end of a word, found one bit at a time. */
  function TrailingOnes(a: bv64): bv64
    decreases a
  {
    if Odd(a) then PushOne(TrailingOnes(Half(a))) else 0
  }

  /** The same by one carry propagation. */
  function LowOnes(a: bv64): bv64 { a & !(a + 1) }

  lemma LowOnesEven(a: bv64)
    requires !Odd(a)
    ensures LowOnes(a) == 0
  {
  }

  lemma LowOnesOdd(a: bv64)
    requires Odd(a)
    ensures Half(a) < a
    ensures LowOnes(a) == PushOne(LowOnes(Half(a)))
  {
  }

  lemma {:induction false} TrailingOnesTrick(a: bv64)
    ensures TrailingOnes(a) == LowOnes(a)
    decreases a
  {
    hide Odd, Half, PushOne, LowOnes;
    if Odd(a) {
      LowOnesOdd(a);
      TrailingOnesTrick(Half(a));
    } else {
      LowOnesEven(a);
    }
  }

  // ---------------------------------------------------------------------------------------
  // Naturally aligned blocks

  predicate PowerOfTwo(len: bv64) { len != 0 && len & (len - 1) == 0 }

  /** The MMU's argument check: `len` a power of two and `addr` a multiple of it. */
  predicate Aligned(addr: bv64, len: bv64) { len != 0 && (addr | len) & (len - 1) == 0 }

  /** The start of the naturally aligned block of `len` bytes that holds `x`. */
  function BlockOf(x: bv64, len: bv64): bv64 { x & !(len - 1) }

  lemma AlignedFacts(addr: bv64, len: bv64)
    requires Aligned(addr, len)
    ensures PowerOfTwo(len) && BlockOf(addr, len) == addr
  {
  }

  lemma KeepNegated(x: bv64, len: bv64)
    ensures Keep(x, 0 - len) == BlockOf(x, len)
  {
    hide *;
    Negated(len);
    BlockKeeps(x, len);
  }

  lemma Negated(len: bv64)
    ensures 0 - len == !(len - 1)
  {
  }

  lemma BlockKeeps(x: bv64, len: bv64)
    ensures Keep(x, !(len - 1)) == BlockOf(x, len)
  {
  }

  predicate One(x: bv64) { x == 1 }

  lemma BlockOfOne(x: bv64, len: bv64)
    requires One(len)
    ensures BlockOf(x, len) == x
  {
  }

  lemma BlockHalves(x: bv64, len: bv64)
    requires PowerOfTwo(len) && !One(len)
    ensures BlockOf(x, len) == Twice(BlockOf(Half(x), Half(len)))
  {
    hide *;
    OffsetsOf(x, len);
    OffsetsOf(Half(x), Half(len));
    HalfOffsets(len);
    ClearHalves(x, Offsets(Half(len)));
  }

  /** The bits of an offset inside a block. */
  function Offsets(len: bv64): bv64 { len - 1 }

  function Clear(x: bv64, mask: bv64): bv64 { x & !mask }

  lemma OffsetsOf(x: bv64, len: bv64)
    ensures BlockOf(x, len) == Clear(x, Offsets(len))
  {
  }

  lemma HalfOffsets(len: bv64)
    requires PowerOfTwo(len) && !One(len)
    ensures Offsets(len) == PushOne(Offsets(Half(len)))
  {
  }

  lemma ClearHalves(x: bv64, mask: bv64)
    ensures Clear(x, PushOne(mask)) == Twice(Clear(Half(x), mask))
  {
  }

  lemma HalfOfPower(len: bv64)
    requires PowerOfTwo(len) && !One(len)
    ensures PowerOfTwo(Half(len)) && !Zero(len)
  {
  }

  /** The topmost bit is clear, so that doubling loses nothing. */
  predicate Doubles(x: bv64) { x & 0x8000_0000_0000_0000 == 0 }

  lemma HalfDoubles(x: bv64, len: bv64)
    ensures Doubles(BlockOf(Half(x), len))
  {
  }

  lemma TwiceMonotone(x: bv64, y: bv64)
    requires Leq(x, y) && Doubles(y)
    ensures Leq(Twice(x), Twice(y))
  {
  }

  /** Rounding down to blocks keeps the order, one bit of the block size at a time. */
  lemma {:induction false} BlockMonotone(x: bv64, y: bv64, len: bv64)
    requires PowerOfTwo(len) && Leq(x, y)
    ensures Leq(BlockOf(x, len), BlockOf(y, len))
    decreases len
  {
    hide *;
    if One(len) {
      BlockOfOne(x, len);
      BlockOfOne(y, len);
    } else {
      HalfOfPower(len);
      HalfShrinks(len);
      HalfMonotone(x, y);
      BlockMonotone(Half(x), Half(y), Half(len));
      BlockHalves(x, len);
      BlockHalves(y, len);
      HalfDoubles(y, Half(len));
      TwiceMonotone(BlockOf(Half(x), Half(len)), BlockOf(Half(y), Half(len)));
    }
  }

  lemma LeqFromBlock(t: bv64, x: bv64, len: bv64)
    requires Leq(t, BlockOf(x, len))
    ensures Leq(t, x)
  {
  }

  /** A bound that is a multiple of `len` orders all bytes of a block alike. */
  lemma LeqByBlock(t: bv64, x: bv64, len: bv64)
    requires PowerOfTwo(len) && BlockOf(t, len) == t
    ensures Leq(t, x) <==> Leq(t, BlockOf(x, len))
  {
    hide *;
    if Leq(t, x) {
      BlockMonotone(t, x, len);
    } else if Leq(t, BlockOf(x, len)) {
      LeqFromBlock(t, x, len);
    }
  }

  lemma AgreeAbove(x: bv64, y: bv64, t: bv64, len: bv64, mask: bv64)
    requires BlockOf(x, len) == BlockOf(y, len) && mask & (len - 1) == 0
    requires Agree(x, t, mask)
    ensures Agree(y, t, mask)
  {
  }

  lemma BlockOfEnd(addr: bv64, len: bv64)
    requires Aligned(addr, len)
    ensures BlockOf(BlockEnd(addr, len), len) == addr
  {
  }

  lemma BlockOfLast(addr: bv64, len: bv64)
    requires Aligned(addr, len)
    ensures BlockOf(addr + (len - 1), len) == addr
  {
    hide *;
    BlockOfEnd(addr, len);
    BlockEndIsLast(addr, len);
  }

  lemma BlockBelow(x: bv64, len: bv64)
    ensures Leq(BlockOf(x, len), x)
  {
  }

  lemma SmallerMask(s: bv64, len: bv64)
    requires PowerOfTwo(s) && PowerOfTwo(len) && Leq(s, len)
    ensures (s - 1) & !(len - 1) == 0
  {
  }

  lemma NestedMasks(x: bv64, s: bv64, len: bv64)
    requires (s - 1) & !(len - 1) == 0
    ensures BlockOf(BlockOf(x, s), len) == BlockOf(x, len)
  {
  }

  lemma Reflexive(x: bv64)
    ensures Leq(x, x)
  {
  }

  lemma Total(x: bv64, y: bv64)
    requires !Leq(x, y)
    ensures Leq(y, x)
  {
  }

  /** Bounds whose blocks are ordered against the order of the bounds share a block. */
  lemma SharedBlock(x: bv64, y: bv64, len: bv64)
    requires PowerOfTwo(len) && !Leq(y, x) && Leq(BlockOf(y, len), BlockOf(x, len))
    ensures BlockOf(x, len) == BlockOf(y, len)
  {
    hide *;
    Total(y, x);
    BlockMonotone(x, y, len);
    Antisymmetric(BlockOf(x, len), BlockOf(y, len));
    SameIsEqual(BlockOf(y, len), BlockOf(x, len));
  }

  function BlockEnd(x: bv64, len: bv64): bv64 { x | (len - 1) }

  lemma BlockAbove(x: bv64, len: bv64)
    ensures Leq(x, BlockEnd(BlockOf(x, len), len))
  {
  }

  lemma BlockEndIsLast(addr: bv64, len: bv64)
    requires Aligned(addr, len)
    ensures BlockEnd(addr, len) == addr + (len - 1)
  {
  }

  /** The block of an aligned address is the byte range that starts there. */
  lemma BlockIsRange(x: bv64, addr: bv64, len: bv64)
    requires Aligned(addr, len)
    ensures BlockOf(x, len) == BlockOf(addr, len) <==> Leq(addr, x) && Leq(x, addr + (len - 1))
  {
    hide *;
    AlignedFacts(addr, len);
    if BlockOf(x, len) == addr {
      BlockBelow(x, len);
      BlockAbove(x, len);
      BlockEndIsLast(addr, len);
    } else if Leq(addr, x) && Leq(x, addr + (len - 1)) {
      BlockMonotone(addr, x, len);
      BlockMonotone(x, addr + (len - 1), len);
      BlockOfLast(addr, len);
      Antisymmetric(addr, BlockOf(x, len));
      SameIsEqual(BlockOf(x, len), addr);
    }
  }
}
