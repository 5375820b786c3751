/** Physical memory protection as the simulator's MMU decides it: the priority match over the
    pmpcfg/pmpaddr pairs with its mask trick, and the test that a block of memory is not cut by
    any entry. Both are compared with the region an entry denotes in section 3.6 of the RISC-V
    Privileged Architecture v1.10. */
module Pmp {
  import opened Words

  datatype Access = Fetch | Load | Store

  datatype Entry = Entry(cfg: bv8, addr: bv64)

  const PMP_R: bv8 := 0x01
  const PMP_W: bv8 := 0x02
  const PMP_X: bv8 := 0x04
  const PMP_A: bv8 := 0x18
  const PMP_L: bv8 := 0x80
  const PMP_TOR: bv8 := 0x08
  const PMP_NA4: bv8 := 0x10
  const PMP_NAPOT: bv8 := 0x18

  const PRV_S: bv64 := 1
  const PRV_M: bv64 := 3

  predicate Active(e: Entry) { e.cfg & PMP_A != 0 }

  predicate IsTor(e: Entry) { e.cfg & PMP_A == PMP_TOR }

  predicate IsNa4(e: Entry) { e.cfg & PMP_A == PMP_NA4 }

  function Tor(e: Entry): bv64 { e.addr << 2 }

  /** The permission bits of a matching entry. */
  predicate Grants(cfg: bv8, access: Access, mode: bv64) {
    (mode == PRV_M && cfg & PMP_L == 0) ||
    (access == Load && cfg & PMP_R != 0) ||
    (access == Store && cfg & PMP_W != 0) ||
    (access == Fetch && cfg & PMP_X != 0)
  }

  // ---------------------------------------------------------------------------------------
  // What an entry means

  /** The offset bits of a naturally aligned region: its size in bytes minus one. Each
      contiguous one at the low end of the address register doubles the 8-byte minimum. */
  function RegionMask(e: Entry): bv64 {
    if IsNa4(e) then 3 else (TrailingOnes(e.addr) << 3) | 7
  }

  predicate InRegion(e: Entry, x: bv64) {
    Keep(x, !RegionMask(e)) == Keep(Tor(e), !RegionMask(e))
  }

  /** Entry `e`, preceded by an entry whose address ends at `base`, covers byte `x`. */
  predicate Covers(base: bv64, e: Entry, x: bv64) {
    Active(e) && if IsTor(e) then Leq(base, x) && !Leq(Tor(e), x) else InRegion(e, x)
  }

  function BaseOf(entries: seq<Entry>, i: nat): bv64
    requires i <= |entries|
  {
    if i == 0 then 0 else Tor(entries[i - 1])
  }

  predicate CoveredBy(entries: seq<Entry>, i: nat, x: bv64)
    requires i < |entries|
  {
    Covers(BaseOf(entries, i), entries[i], x)
  }

  /** Byte `x` may be accessed: the first covering entry from `i` on decides, machine mode
      passes where none does. */
  predicate Permitted(entries: seq<Entry>, i: nat, x: bv64, access: Access, mode: bv64)
    requires i <= |entries|
    decreases |entries| - i
  {
    if i == |entries| then mode == PRV_M
    else if CoveredBy(entries, i, x) then Grants(entries[i].cfg, access, mode)
    else Permitted(entries, i + 1, x, access, mode)
  }

  // ---------------------------------------------------------------------------------------
  // The priority search

  function NapotMask(e: Entry): bv64 {
    var m := (e.addr << 1) | (if IsNa4(e) then 0 else 1);
    !(m & !(m + 1)) << 2
  }

  /** The mask computed by carry propagation selects exactly the bits above the region. */
  lemma NapotMaskSelects(e: Entry)
    ensures NapotMask(e) == !RegionMask(e)
  {
    if IsNa4(e) {
      EvenMask(e.addr << 1);
    } else {
      NapotMaskOnes(e);
      hide NapotMask, TrailingOnes, LowOnes;
      TrailingOnesTrick(e.addr);
    }
  }

  lemma EvenMask(m: bv64)
    requires m & 1 == 0
    ensures !(m & !(m + 1)) << 2 == !3
  {
  }

  lemma NapotMaskOnes(e: Entry)
    requires !IsNa4(e)
    ensures NapotMask(e) == !((LowOnes(e.addr) << 3) | 7)
  {
  }

  predicate NapotMatch(e: Entry, addr: bv64) {
    Agree(addr, Tor(e), NapotMask(e))
  }

  /** One entry's test in the MMU's search, as the code computes it. */
  predicate Matches(base: bv64, e: Entry, addr: bv64) {
    Active(e) && if IsTor(e) then Leq(base, addr) && !Leq(Tor(e), addr) else NapotMatch(e, addr)
  }

  /** The computed test is membership in the region the entry denotes. */
  lemma MatchesIsCovers(base: bv64, e: Entry, addr: bv64)
    ensures Matches(base, e, addr) == Covers(base, e, addr)
  {
    NapotMaskSelects(e);
    AgreeIsKeep(addr, Tor(e), NapotMask(e));
    hide NapotMask, RegionMask, Tor, Agree, Keep, Leq, Active, IsTor;
  }

  method PmpOk(entries: seq<Entry>, addr: bv64, access: Access, mode: bv64) returns (ok: bool)
    ensures ok == Permitted(entries, 0, addr, access, mode)
  {
    hide Matches, Covers, Grants, Tor;
    var base: bv64 := 0;
    var i := 0;
    while i < |entries|
      invariant 0 <= i <= |entries|
      invariant base == BaseOf(entries, i)
      invariant Permitted(entries, 0, addr, access, mode) == Permitted(entries, i, addr, access, mode)
    {
      MatchesIsCovers(base, entries[i], addr);
      if Matches(base, entries[i], addr) {
        return Grants(entries[i].cfg, access, mode);
      }
      base := Tor(entries[i]);
      i := i + 1;
    }
    return mode == PRV_M;
  }

  // ---------------------------------------------------------------------------------------
  // Homogeneity

  /** `Leq` negated is the code's strict comparison with its operands exchanged. */
  predicate TorHomogeneous(base: bv64, tor: bv64, addr: bv64, len: bv64) {
    var negLen := 0 - len;
    !Leq(Keep(base, negLen), Keep(addr, negLen)) || Leq(tor, addr) ||
    (Leq(base, addr) && !Leq(Keep(tor, negLen), Keep(addr, negLen)))
  }

  predicate MaskHomogeneous(e: Entry, len: bv64) {
    !(NapotMask(e) << 1) & len != 0
  }

  /** The code divides, `(addr ^ tor) / len != 0`: for unsigned words that says the dividend is
      at least `len`. */
  predicate Apart(t: bv64, addr: bv64, len: bv64) {
    (addr ^ t) >= len
  }

  predicate EntryHomogeneous(base: bv64, e: Entry, addr: bv64, len: bv64) {
    Active(e) ==>
      if IsTor(e) then TorHomogeneous(base, Tor(e), addr, len)
      else MaskHomogeneous(e, len) || Apart(Tor(e), addr, len)
  }

  predicate Homogeneous(entries: seq<Entry>, addr: bv64, len: bv64) {
    forall i :: 0 <= i < |entries| ==> EntryHomogeneous(BaseOf(entries, i), entries[i], addr, len)
  }

  method PmpHomogeneous(entries: seq<Entry>, addr: bv64, len: bv64) returns (r: bool)
    requires Aligned(addr, len)
    ensures r == Homogeneous(entries, addr, len)
  {
    hide EntryHomogeneous, Tor, Aligned;
    var base: bv64 := 0;
    var i := 0;
    while i < |entries|
      invariant 0 <= i <= |entries|
      invariant base == BaseOf(entries, i)
      invariant forall j :: 0 <= j < i ==> EntryHomogeneous(BaseOf(entries, j), entries[j], addr, len)
    {
      if !EntryHomogeneous(base, entries[i], addr, len) {
        return false;
      }
      base := Tor(entries[i]);
      i := i + 1;
    }
    return true;
  }

  // Top-of-range entries

  lemma TorHomogeneousBlocks(base: bv64, tor: bv64, addr: bv64, len: bv64)
    ensures TorHomogeneous(base, tor, addr, len) <==>
      !Leq(BlockOf(base, len), BlockOf(addr, len)) || Leq(tor, addr) ||
      (Leq(base, addr) && !Leq(BlockOf(tor, len), BlockOf(addr, len)))
  {
    KeepNegated(base, len);
    KeepNegated(tor, len);
    KeepNegated(addr, len);
    hide Keep, Leq, BlockOf;
  }

  lemma TorAgrees(base: bv64, tor: bv64, addr: bv64, len: bv64, x: bv64)
    requires Aligned(addr, len) && BlockOf(x, len) == BlockOf(addr, len)
    requires TorHomogeneous(base, tor, addr, len)
    ensures Leq(base, x) && !Leq(tor, x) <==> Leq(base, addr) && !Leq(tor, addr)
  {
    hide *;
    TorHomogeneousBlocks(base, tor, addr, len);
    AlignedFacts(addr, len);
    OrderInBlock(base, addr, len, x);
    OrderInBlock(tor, addr, len, x);
  }

  /** A bound outside the block, or at or below its start, orders all bytes of the block alike. */
  lemma OrderInBlock(t: bv64, addr: bv64, len: bv64, x: bv64)
    requires PowerOfTwo(len) && BlockOf(addr, len) == addr == BlockOf(x, len)
    ensures Leq(t, addr) ==> Leq(t, x)
    ensures !Leq(BlockOf(t, len), BlockOf(addr, len)) ==> !Leq(t, addr) && !Leq(t, x)
  {
    hide *;
    if Leq(t, addr) {
      LeqFromBlock(t, x, len);
      BlockMonotone(t, addr, len);
    }
    if Leq(t, x) {
      BlockMonotone(t, x, len);
    }
  }

  // Naturally aligned entries

  lemma CoarserAgrees(e: Entry, addr: bv64, len: bv64, x: bv64)
    requires PowerOfTwo(len) && BlockOf(x, len) == BlockOf(addr, len) && MaskHomogeneous(e, len)
    requires NapotMatch(e, x)
    ensures NapotMatch(e, addr)
  {
    MaskAbove(e, len);
    hide BlockOf, Agree, NapotMask, Tor;
    AgreeAbove(x, addr, Tor(e), len, NapotMask(e));
  }

  lemma MaskAbove(e: Entry, len: bv64)
    requires PowerOfTwo(len) && MaskHomogeneous(e, len)
    ensures NapotMask(e) & (len - 1) == 0
  {
  }

  lemma FinerApart(e: Entry, addr: bv64, len: bv64)
    requires PowerOfTwo(len) && !MaskHomogeneous(e, len) && NapotMatch(e, addr)
    ensures Agree(addr, Tor(e), !(len - 1))
  {
  }

  lemma ApartDiffers(t: bv64, addr: bv64, len: bv64)
    requires PowerOfTwo(len) && Apart(t, addr, len)
    ensures !Agree(addr, t, !(len - 1))
  {
  }

  lemma NearAgrees(t: bv64, addr: bv64, len: bv64)
    requires PowerOfTwo(len) && !Apart(t, addr, len)
    ensures Agree(addr, t, !(len - 1))
  {
  }

  /** The quotient test asks whether the entry's address lies outside the block. */
  lemma ApartIsOutside(t: bv64, addr: bv64, len: bv64)
    requires PowerOfTwo(len)
    ensures Apart(t, addr, len) <==> BlockOf(addr, len) != BlockOf(t, len)
  {
    hide *;
    if Apart(t, addr, len) { ApartDiffers(t, addr, len); } else { NearAgrees(t, addr, len); }
    AgreeIsKeep(addr, t, !(len - 1));
    BlockKeeps(addr, len);
    BlockKeeps(t, len);
  }

  lemma FinerInside(e: Entry, addr: bv64, len: bv64)
    requires PowerOfTwo(len) && !MaskHomogeneous(e, len) && NapotMatch(e, addr)
    ensures BlockOf(addr, len) == BlockOf(Tor(e), len)
  {
    hide *;
    FinerApart(e, addr, len);
    AgreeIsKeep(addr, Tor(e), !(len - 1));
    BlockKeeps(addr, len);
    BlockKeeps(Tor(e), len);
  }

  lemma NapotAgrees(e: Entry, addr: bv64, len: bv64, x: bv64)
    requires PowerOfTwo(len) && BlockOf(x, len) == BlockOf(addr, len)
    requires MaskHomogeneous(e, len) || Apart(Tor(e), addr, len)
    ensures NapotMatch(e, x) == NapotMatch(e, addr)
  {
    hide *;
    if MaskHomogeneous(e, len) {
      if NapotMatch(e, x) { CoarserAgrees(e, addr, len, x); }
      if NapotMatch(e, addr) { CoarserAgrees(e, x, len, addr); }
    } else {
      ApartIsOutside(Tor(e), addr, len);
      if NapotMatch(e, x) { FinerInside(e, x, len); }
      if NapotMatch(e, addr) { FinerInside(e, addr, len); }
    }
  }

  lemma EntryAgrees(base: bv64, e: Entry, addr: bv64, len: bv64, x: bv64)
    requires Aligned(addr, len) && BlockOf(x, len) == BlockOf(addr, len)
    requires EntryHomogeneous(base, e, addr, len)
    ensures Covers(base, e, x) == Covers(base, e, addr)
  {
    MatchesIsCovers(base, e, x);
    MatchesIsCovers(base, e, addr);
    AlignedFacts(addr, len);
    hide TorHomogeneous, MaskHomogeneous, Apart, NapotMatch, Leq, Tor, BlockOf, Covers, Aligned, PowerOfTwo, Active,
        IsTor;
    if IsTor(e) {
      if Active(e) { TorAgrees(base, Tor(e), addr, len, x); }
    } else {
      if Active(e) { NapotAgrees(e, addr, len, x); }
    }
  }

  /** A block that passes the homogeneity test is protected uniformly: every byte of it gets the
      verdict of its first byte, for every kind of access and every privilege mode. */
  lemma HomogeneousIsUniform(entries: seq<Entry>, addr: bv64, len: bv64, x: bv64, access: Access, mode: bv64)
    requires Aligned(addr, len) && Homogeneous(entries, addr, len)
    requires Leq(addr, x) && Leq(x, addr + (len - 1))
    ensures Permitted(entries, 0, x, access, mode) == Permitted(entries, 0, addr, access, mode)
  {
    BlockIsRange(x, addr, len);
    UniformFrom(entries, 0, addr, len, x, access, mode);
  }

  lemma {:induction false} UniformFrom(entries: seq<Entry>, i: nat, addr: bv64, len: bv64, x: bv64,
                                       access: Access, mode: bv64)
    requires i <= |entries|
    requires Aligned(addr, len) && Homogeneous(entries, addr, len)
    requires BlockOf(x, len) == BlockOf(addr, len)
    ensures Permitted(entries, i, x, access, mode) == Permitted(entries, i, addr, access, mode)
    decreases |entries| - i
  {
    hide Aligned, BlockOf, EntryHomogeneous, Covers, Grants, Tor;
    if i < |entries| {
      EntryAgrees(BaseOf(entries, i), entries[i], addr, len, x);
      UniformFrom(entries, i + 1, addr, len, x, access, mode);
    }
  }

  // The test is exact

  lemma TorSplits(base: bv64, tor: bv64, addr: bv64, len: bv64) returns (x: bv64)
    requires Aligned(addr, len) && !TorHomogeneous(base, tor, addr, len) && !Leq(tor, base)
    ensures BlockOf(x, len) == BlockOf(addr, len)
    ensures (Leq(base, x) && !Leq(tor, x)) != (Leq(base, addr) && !Leq(tor, addr))
  {
    hide *;
    TorHomogeneousBlocks(base, tor, addr, len);
    AlignedFacts(addr, len);
    if !Leq(base, addr) {
      SharedBlock(addr, base, len);
      Reflexive(base);
      x := base;
    } else {
      SharedBlock(addr, tor, len);
      Reflexive(tor);
      x := tor;
    }
  }

  lemma FlippedBit(e: Entry, len: bv64)
    requires PowerOfTwo(len) && !MaskHomogeneous(e, len)
    ensures !NapotMatch(e, Tor(e) ^ (len >> 1))
    ensures Agree(Tor(e) ^ (len >> 1), Tor(e), !(len - 1))
  {
  }

  lemma MatchesItself(e: Entry)
    ensures NapotMatch(e, Tor(e))
  {
  }

  lemma NapotSplits(e: Entry, addr: bv64, len: bv64) returns (x: bv64)
    requires PowerOfTwo(len) && !MaskHomogeneous(e, len) && !Apart(Tor(e), addr, len)
    ensures BlockOf(x, len) == BlockOf(addr, len)
    ensures NapotMatch(e, x) != NapotMatch(e, addr)
  {
    hide *;
    ApartIsOutside(Tor(e), addr, len);
    if NapotMatch(e, addr) {
      x := Tor(e) ^ (len >> 1);
      FlippedBit(e, len);
      AgreeIsKeep(x, Tor(e), !(len - 1));
      BlockKeeps(x, len);
      BlockKeeps(Tor(e), len);
    } else {
      x := Tor(e);
      MatchesItself(e);
    }
  }

  /** An entry that fails the test really cuts the block, unless it is an empty range. */
  lemma EntrySplits(base: bv64, e: Entry, addr: bv64, len: bv64) returns (x: bv64)
    requires Aligned(addr, len) && !EntryHomogeneous(base, e, addr, len)
    requires Active(e) && IsTor(e) ==> !Leq(Tor(e), base)
    ensures BlockOf(x, len) == BlockOf(addr, len)
    ensures Covers(base, e, x) != Covers(base, e, addr)
  {
    AlignedFacts(addr, len);
    hide TorHomogeneous, MaskHomogeneous, Apart, NapotMatch, Leq, Tor, BlockOf, Covers, Aligned, PowerOfTwo, Active,
        IsTor;
    if IsTor(e) {
      x := TorSplits(base, Tor(e), addr, len);
    } else {
      x := NapotSplits(e, addr, len);
    }
    MatchesIsCovers(base, e, x);
    MatchesIsCovers(base, e, addr);
  }

  /** An empty top-of-range entry whose bounds both lie strictly inside the block. */
  predicate Spoils(base: bv64, tor: bv64, addr: bv64, len: bv64) {
    Leq(tor, base) && !Leq(tor, addr) && BlockOf(base, len) == BlockOf(addr, len)
  }

  predicate NoneSpoils(entries: seq<Entry>, addr: bv64, len: bv64) {
    forall i :: 0 <= i < |entries| && Active(entries[i]) && IsTor(entries[i]) ==>
      !Spoils(BaseOf(entries, i), Tor(entries[i]), addr, len)
  }

  /** An empty range fails the test exactly when it spoils the block, although it covers nothing. */
  lemma EmptyTor(base: bv64, tor: bv64, addr: bv64, len: bv64)
    requires Aligned(addr, len) && Leq(tor, base)
    ensures TorHomogeneous(base, tor, addr, len) <==> !Spoils(base, tor, addr, len)
  {
    hide TorHomogeneous, Leq, BlockOf, Aligned, PowerOfTwo;
    TorHomogeneousBlocks(base, tor, addr, len);
    AlignedFacts(addr, len);
    Reflexive(BlockOf(addr, len));
    if Leq(base, addr) { Transitive(tor, base, addr); }
    if !Leq(tor, addr) && Leq(BlockOf(base, len), BlockOf(addr, len)) {
      SharedBlock(addr, base, len);
    }
  }

  /** No entry cuts the block: each covers either all of its bytes or none. */
  ghost predicate Uncut(entries: seq<Entry>, addr: bv64, len: bv64) {
    forall i, x | 0 <= i < |entries| && Leq(addr, x) && Leq(x, addr + (len - 1)) ::
      CoveredBy(entries, i, x) == CoveredBy(entries, i, addr)
  }

  /** One entry passes the test exactly when it neither spoils the block nor cuts it; if it cuts
      the block, `x` is a byte that it separates from the first. */
  lemma EntryExact(base: bv64, e: Entry, addr: bv64, len: bv64) returns (x: bv64)
    requires Aligned(addr, len)
    ensures Leq(addr, x) && Leq(x, addr + (len - 1))
    ensures EntryHomogeneous(base, e, addr, len) <==>
      Covers(base, e, x) == Covers(base, e, addr) && !(Active(e) && IsTor(e) && Spoils(base, Tor(e), addr, len))
  {
    AlignedFacts(addr, len);
    hide *;
    x := addr;
    BlockIsRange(addr, addr, len);
    EntryTor(base, e, addr, len);
    if Active(e) && IsTor(e) && Leq(Tor(e), base) {
      EmptyTor(base, Tor(e), addr, len);
    } else {
      if Active(e) && IsTor(e) { NotSpoiled(base, Tor(e), addr, len); }
      if !EntryHomogeneous(base, e, addr, len) {
        x := EntrySplits(base, e, addr, len);
        BlockIsRange(x, addr, len);
      }
    }
  }

  lemma EntryTor(base: bv64, e: Entry, addr: bv64, len: bv64)
    ensures Active(e) && IsTor(e) ==>
      (EntryHomogeneous(base, e, addr, len) <==> TorHomogeneous(base, Tor(e), addr, len))
    ensures !Active(e) ==> EntryHomogeneous(base, e, addr, len)
  {
    hide Active, IsTor, Tor, TorHomogeneous, MaskHomogeneous, Apart;
  }

  lemma NotSpoiled(base: bv64, tor: bv64, addr: bv64, len: bv64)
    requires !Leq(tor, base)
    ensures !Spoils(base, tor, addr, len)
  {
    hide Leq, BlockOf;
  }

  /** The bit tricks decide exactly whether some entry cuts the block, but for empty ranges inside
      it, which fail the test as well. */
  lemma HomogeneousIsExact(entries: seq<Entry>, addr: bv64, len: bv64)
    requires Aligned(addr, len)
    ensures Homogeneous(entries, addr, len) <==> Uncut(entries, addr, len) && NoneSpoils(entries, addr, len)
  {
    if Homogeneous(entries, addr, len) {
      PassedIsUncut(entries, addr, len);
    } else {
      FailedIsCut(entries, addr, len);
    }
  }

  lemma PassedIsUncut(entries: seq<Entry>, addr: bv64, len: bv64)
    requires Aligned(addr, len) && Homogeneous(entries, addr, len)
    ensures Uncut(entries, addr, len) && NoneSpoils(entries, addr, len)
  {
    hide Aligned, EntryHomogeneous, Covers, Leq, Tor, IsTor, Active, BlockOf, Spoils;
    forall i, x | 0 <= i < |entries| && Leq(addr, x) && Leq(x, addr + (len - 1))
      ensures CoveredBy(entries, i, x) == CoveredBy(entries, i, addr)
    {
      BlockIsRange(x, addr, len);
      EntryAgrees(BaseOf(entries, i), entries[i], addr, len, x);
    }
    forall i | 0 <= i < |entries| && Active(entries[i]) && IsTor(entries[i])
      ensures !Spoils(BaseOf(entries, i), Tor(entries[i]), addr, len)
    {
      var x := EntryExact(BaseOf(entries, i), entries[i], addr, len);
    }
  }

  lemma FailedIsCut(entries: seq<Entry>, addr: bv64, len: bv64)
    requires Aligned(addr, len) && !Homogeneous(entries, addr, len)
    ensures !(Uncut(entries, addr, len) && NoneSpoils(entries, addr, len))
  {
    hide Aligned, EntryHomogeneous, Covers, Leq, Tor, IsTor, Active, BlockOf, Spoils;
    var i :| 0 <= i < |entries| && !EntryHomogeneous(BaseOf(entries, i), entries[i], addr, len);
    var x := EntryExact(BaseOf(entries, i), entries[i], addr, len);
    if Uncut(entries, addr, len) {
      assert CoveredBy(entries, i, x) == CoveredBy(entries, i, addr);
    }
  }

  /** For an empty range the test can fail although no byte is covered: an entry that ends at
      byte 4 after one that ends at byte 8 spoils the first 16 bytes. */
  lemma EmptyRangeSpoils()
    ensures var entries := [Entry(0, 2), Entry(PMP_TOR, 1)];
      !Homogeneous(entries, 0, 16) && forall x :: !CoveredBy(entries, 0, x) && !CoveredBy(entries, 1, x)
  {
    var entries := [Entry(0, 2), Entry(PMP_TOR, 1)];
    assert !EntryHomogeneous(BaseOf(entries, 1), entries[1], 0, 16);
    forall x
      ensures !CoveredBy(entries, 0, x) && !CoveredBy(entries, 1, x)
    {
      assert !(8 <= x && x < 4);
    }
  }

  // Sub-blocks

  lemma MaskHomogeneousSub(e: Entry, len: bv64, sub: bv64)
    requires PowerOfTwo(len) && PowerOfTwo(sub) && (sub - 1) & !(len - 1) == 0
    requires MaskHomogeneous(e, len)
    ensures MaskHomogeneous(e, sub)
  {
  }

  lemma TorInherits(base: bv64, tor: bv64, addr: bv64, len: bv64, at: bv64, sub: bv64)
    requires Aligned(addr, len) && Aligned(at, sub) && (sub - 1) & !(len - 1) == 0
    requires BlockOf(at, len) == addr && TorHomogeneous(base, tor, addr, len)
    ensures TorHomogeneous(base, tor, at, sub)
  {
    hide *;
    AlignedFacts(addr, len);
    TorHomogeneousBlocks(base, tor, addr, len);
    TorHomogeneousBlocks(base, tor, at, sub);
    if Leq(BlockOf(base, sub), BlockOf(at, sub)) { AboveInherits(base, addr, len, at, sub); }
    if Leq(BlockOf(tor, sub), BlockOf(at, sub)) { AboveInherits(tor, addr, len, at, sub); }
    if Leq(tor, addr) { LeqFromBlock(tor, at, len); }
    if Leq(base, addr) { LeqFromBlock(base, at, len); }
  }

  lemma AboveInherits(t: bv64, addr: bv64, len: bv64, at: bv64, sub: bv64)
    requires PowerOfTwo(len) && (sub - 1) & !(len - 1) == 0 && BlockOf(at, len) == BlockOf(addr, len)
    requires Leq(BlockOf(t, sub), BlockOf(at, sub))
    ensures Leq(BlockOf(t, len), BlockOf(addr, len))
  {
    hide *;
    NestedMasks(t, sub, len);
    NestedMasks(at, sub, len);
    BlockMonotone(BlockOf(t, sub), BlockOf(at, sub), len);
  }

  lemma ApartInherits(t: bv64, addr: bv64, len: bv64, at: bv64, sub: bv64)
    requires PowerOfTwo(len) && PowerOfTwo(sub) && (sub - 1) & !(len - 1) == 0
    requires BlockOf(at, len) == BlockOf(addr, len) && Apart(t, addr, len)
    ensures Apart(t, at, sub)
  {
    hide *;
    ApartIsOutside(t, addr, len);
    ApartIsOutside(t, at, sub);
    NestedMasks(t, sub, len);
    NestedMasks(at, sub, len);
  }

  lemma EntryInherits(base: bv64, e: Entry, addr: bv64, len: bv64, at: bv64, sub: bv64)
    requires Aligned(addr, len) && Aligned(at, sub) && Leq(sub, len) && BlockOf(at, len) == addr
    requires EntryHomogeneous(base, e, addr, len)
    ensures EntryHomogeneous(base, e, at, sub)
  {
    AlignedFacts(addr, len);
    AlignedFacts(at, sub);
    SmallerMask(sub, len);
    hide TorHomogeneous, MaskHomogeneous, Apart, Leq, Tor, BlockOf, Aligned, PowerOfTwo, Active, IsTor;
    if Active(e) && IsTor(e) {
      TorInherits(base, Tor(e), addr, len, at, sub);
    } else if Active(e) && MaskHomogeneous(e, len) {
      MaskHomogeneousSub(e, len, sub);
    } else if Active(e) {
      ApartInherits(Tor(e), addr, len, at, sub);
    }
  }

  lemma InheritsInBlock(entries: seq<Entry>, addr: bv64, len: bv64, at: bv64, sub: bv64)
    requires Aligned(addr, len) && Aligned(at, sub) && Leq(sub, len) && BlockOf(at, len) == addr
    requires Homogeneous(entries, addr, len)
    ensures Homogeneous(entries, at, sub)
  {
    hide Aligned, EntryHomogeneous, Leq, Tor, BlockOf;
    forall i | 0 <= i < |entries|
      ensures EntryHomogeneous(BaseOf(entries, i), entries[i], at, sub)
    {
      EntryInherits(BaseOf(entries, i), entries[i], addr, len, at, sub);
    }
  }

  /** Homogeneity passes to every aligned power-of-two part of a block. */
  lemma HomogeneousInherits(entries: seq<Entry>, addr: bv64, len: bv64, at: bv64, sub: bv64)
    requires Aligned(addr, len) && Aligned(at, sub) && Leq(sub, len)
    requires Leq(addr, at) && Leq(at, addr + (len - 1))
    requires Homogeneous(entries, addr, len)
    ensures Homogeneous(entries, at, sub)
  {
    hide *;
    BlockIsRange(at, addr, len);
    AlignedFacts(addr, len);
    InheritsInBlock(entries, addr, len, at, sub);
  }
}
