/** The bare-metal PMP test: its own decoder for one protection entry, which walks the address
    register bit by bit and counts hits word by word, and the encoders that program an entry.
    Both are compared with the MMU's mask tricks. */
module PmpTest {
  import opened Words
  import opened Pmp

  /** The test's record of the entry it programs: configuration byte and two address registers. */
  datatype Config = Config(cfg: bv8, a0: bv64, a1: bv64)

  const GRANULE: bv64 := 4

  predicate ActiveConfig(p: Config) { p.cfg & PMP_A != 0 }

  /** What the test programs: entry 0 off and holding a0, entry 1 under test, entry 2 matching
      everything readably, and the remaining entries off. */
  function Programmed(p: Config, rest: seq<Entry>): seq<Entry> {
    [Entry(0, p.a0), Entry(p.cfg, p.a1), Entry(PMP_NAPOT | PMP_R, 0xFFFF_FFFF_FFFF_FFFF)] + rest
  }

  predicate AllOff(entries: seq<Entry>) {
    forall i :: 0 <= i < |entries| ==> !Active(entries[i])
  }

  // ---------------------------------------------------------------------------------------
  // Decoding

  /** The word address a naturally aligned entry starts at: its trailing ones cleared. */
  function NapotStart(a1: bv64): bv64 { a1 & !LowOnes(a1) }

  /** Its length in words: two, doubled for every trailing one. */
  function NapotRange(a1: bv64): bv64 { (LowOnes(a1) + 1) << 1 }

  /** The byte window the test computes for an active entry, upper end exclusive. */
  function Low(p: Config): bv64 { Scale(First(p)) }

  function High(p: Config): bv64 {
    Scale(if IsTorConfig(p) then p.a1 else Plus(First(p), WordCount(p)))
  }

  function First(p: Config): bv64 {
    if IsTorConfig(p) then p.a0 else if IsNapotConfig(p) then NapotStart(p.a1) else p.a1
  }

  function WordCount(p: Config): bv64 {
    if IsNapotConfig(p) then NapotRange(p.a1) else 1
  }

  predicate IsTorConfig(p: Config) { p.cfg & PMP_A == PMP_TOR }

  predicate IsNapotConfig(p: Config) { p.cfg & PMP_A == PMP_NAPOT }

  /** From word to byte addresses, modulo the width of the machine word. */
  function Scale(a: bv64): bv64 { a * GRANULE }

  function Plus(x: bv64, y: bv64): bv64 { x + y }

  predicate BitSet(a: bv64, i: bv64) { a & i != 0 }

  /** The loop's progress over register `a`: `i` is a power of two or has been shifted out, all
      bits below it were ones and are cleared in `start`, and `range` is twice `i`. */
  predicate Scanned(a: bv64, i: bv64, start: bv64, range: bv64) {
    i & (i - 1) == 0 && a & (i - 1) == i - 1 && start == a & !(i - 1) && range == i << 1
  }

  predicate Decoded(a: bv64, start: bv64, range: bv64) {
    start == NapotStart(a) && range == NapotRange(a)
  }

  lemma ScanStart(a: bv64)
    ensures Scanned(a, 1, a, Twice(1))
  {
  }

  lemma ScanBits(a: bv64, i: bv64)
    requires i & (i - 1) == 0 && a & (i - 1) == i - 1 && (a & !(i - 1)) & i != 0
    ensures (i << 1) & ((i << 1) - 1) == 0
    ensures a & ((i << 1) - 1) == (i << 1) - 1
    ensures (a & !(i - 1)) & !i == a & !((i << 1) - 1)
  {
  }

  lemma ScanStep(a: bv64, i: bv64, start: bv64, range: bv64)
    requires Scanned(a, i, start, range) && BitSet(start, i)
    ensures Scanned(a, Twice(i), Clear(start, i), Twice(range))
  {
    ScanBits(a, i);
  }

  /** The probe after `k` steps of the loop. */
  function Probe(k: nat): bv64 {
    if k == 0 then 1 else Twice(Probe(k - 1))
  }

  predicate ProbeAt(i: bv64, k: nat) { i == Probe(k) }

  lemma ProbeStart()
    ensures ProbeAt(1, 0)
  {
  }

  lemma ProbeStep(i: bv64, k: nat)
    requires ProbeAt(i, k)
    ensures ProbeAt(Twice(i), k + 1)
  {
  }

  lemma FourDoubles(x: bv64)
    ensures Twice(Twice(Twice(Twice(x)))) == Shift4(x)
  {
  }

  function Shift4(x: bv64): bv64 { x << 4 }

  lemma FourProbes(k: nat)
    ensures Probe(k + 4) == Shift4(Probe(k))
  {
    ProbeUnfold(k);
    ProbeUnfold(k + 1);
    ProbeUnfold(k + 2);
    ProbeUnfold(k + 3);
    FourDoubles(Probe(k));
    hide Probe, Twice, Shift4;
  }

  lemma ProbeUnfold(k: nat)
    ensures Probe(k + 1) == Twice(Probe(k))
  {
  }

  lemma SixteenProbes(k: nat)
    ensures Probe(k + 16) == Shift4(Shift4(Shift4(Shift4(Probe(k)))))
  {
    hide Probe, Shift4;
    FourProbes(k);
    FourProbes(k + 4);
    FourProbes(k + 8);
    FourProbes(k + 12);
  }

  function Shift16(x: bv64): bv64 { Shift4(Shift4(Shift4(Shift4(x)))) }

  lemma ShiftedOut(x: bv64)
    requires x == Shift16(Shift16(Shift16(Shift16(1))))
    ensures Gone(x)
  {
  }

  /** After 64 steps the probe has been shifted out. */
  lemma ProbeGone(i: bv64)
    requires ProbeAt(i, 64)
    ensures Gone(i)
  {
    assert Probe(0) == 1;
    hide Probe, Shift4, Gone;
    SixteenProbes(0);
    SixteenProbes(16);
    SixteenProbes(32);
    SixteenProbes(48);
    ShiftedOut(i);
  }

  lemma LowOnesFound(a: bv64, i: bv64)
    requires i & (i - 1) == 0 && a & (i - 1) == i - 1 && (a & !(i - 1)) & i == 0
    ensures LowOnes(a) == i - 1
  {
  }

  lemma ScanResult(a: bv64, i: bv64, start: bv64, range: bv64)
    requires LowOnes(a) == i - 1 && start == a & !(i - 1) && range == i << 1
    ensures Decoded(a, start, range)
  {
  }

  lemma ScanEnd(a: bv64, i: bv64, start: bv64, range: bv64)
    requires Scanned(a, i, start, range) && !BitSet(start, i)
    ensures Decoded(a, start, range)
  {
    LowOnesFound(a, i);
    ScanResult(a, i, start, range);
  }

  lemma NoBitAtZero(a: bv64, i: bv64)
    requires Gone(i)
    ensures !BitSet(a, i)
  {
  }

  predicate Gone(i: bv64) { i == 0 }

  /** The trailing-ones loop: clears the ones below the lowest zero and doubles the range for
      each; an all-ones register shifts the range out altogether. */
  method DecodeNapot(a: bv64) returns (start: bv64, range: bv64)
    ensures Decoded(a, start, range)
  {
    hide *;
    start := a;
    range := Twice(1);
    var i: bv64 := 1;
    ghost var k := 0;
    ScanStart(a);
    ProbeStart();
    while !Gone(i)
      invariant k <= 64 && ProbeAt(i, k)
      invariant Scanned(a, i, start, range)
      decreases 64 - k
    {
      if !BitSet(start, i) {
        ScanEnd(a, i, start, range);
        return;
      }
      if k == 64 { ProbeGone(i); }
      ProbeStep(i, k);
      ScanStep(a, i, start, range);
      start := Clear(start, i);
      range := Twice(range);
      i := Twice(i);
      k := k + 1;
    }
    NoBitAtZero(start, i);
    ScanEnd(a, i, start, range);
  }

  lemma DecodedParts(a: bv64, start: bv64, range: bv64)
    requires Decoded(a, start, range)
    ensures start == NapotStart(a) && range == NapotRange(a)
  {
  }

  method Window(p: Config) returns (a0: bv64, a1: bv64)
    ensures a0 == Low(p) && a1 == High(p)
  {
    hide Scale, Plus, NapotStart, NapotRange, Decoded, IsTorConfig, IsNapotConfig;
    a0, a1 := p.a0, p.a1;
    if !IsTorConfig(p) {
      var range: bv64 := 1;
      if IsNapotConfig(p) {
        var start;
        start, range := DecodeNapot(a1);
        DecodedParts(a1, start, range);
        a1 := start;
      }
      a0 := a1;
      a1 := Plus(a0, range);
    }
    a0 := Scale(a0);
    a1 := Scale(a1);
  }

  function WordAt(addr: bv64, i: nat): bv64
    requires i < 8
  {
    addr + (i as bv64)
  }

  lemma WordsAt(addr: bv64)
    ensures WordAt(addr, 0) == addr && WordAt(addr, 4) == addr + 4
  {
  }

  method CountHits(a0: bv64, a1: bv64, addr: bv64, size: nat) returns (ok: bool)
    requires AccessSize(size)
    ensures ok == (size < 8 || Inside(a0, a1, addr) == Inside(a0, a1, addr + 4))
  {
    WordsAt(addr);
    hide Inside, WordAt;
    var hits := 0;
    var i := 0;
    while i < size
      invariant i == 0 || i == 4 || i == 8
      invariant i == 0 ==> hits == 0
      invariant i >= 4 ==> (hits >= 4 <==> Inside(a0, a1, addr) || (i == 8 && Inside(a0, a1, addr + 4)))
      invariant 0 <= hits <= i && hits % 4 == 0
      invariant i == 8 ==> (hits == 8 <==> Inside(a0, a1, addr) && Inside(a0, a1, addr + 4))
      invariant i == 8 ==> size == 8
    {
      if Inside(a0, a1, WordAt(addr, i)) {
        hits := hits + 4;
      }
      i := i + 4;
    }
    return hits == 0 || hits >= size;
  }

  predicate Inside(lo: bv64, hi: bv64, x: bv64) { Leq(lo, x) && !Leq(hi, x) }

  predicate AccessSize(size: nat) { size == 1 || size == 2 || size == 4 || size == 8 }

  predicate Hit(p: Config, x: bv64) { Inside(Low(p), High(p), x) }

  /** The test's prediction for an access: it is not expected to trap when every word it touches
      hits the window, or none does. The four sizes are those the test issues. */
  predicate TestVerdict(p: Config, addr: bv64, size: nat) {
    !ActiveConfig(p) || size < 8 || Hit(p, addr) == Hit(p, addr + 4)
  }

  method TestPmpOk(p: Config, addr: bv64, size: nat) returns (ok: bool)
    requires AccessSize(size)
    ensures ok == TestVerdict(p, addr, size)
  {
    hide Low, High, Inside;
    if p.cfg & PMP_A == 0 {
      return true;
    }
    var a0, a1 := Window(p);
    ok := CountHits(a0, a1, addr, size);
  }

  // ---------------------------------------------------------------------------------------
  // Agreement with the simulator

  function Entry0(p: Config): Entry { Entry(0, p.a0) }

  function Entry1(p: Config): Entry { Entry(p.cfg, p.a1) }

  function Entry2(): Entry { Entry(PMP_NAPOT | PMP_R, 0xFFFF_FFFF_FFFF_FFFF) }

  function SizeWord(size: nat): bv64
    requires AccessSize(size)
  {
    size as bv64
  }

  /** The verdict of the MMU on a supervisor load: permitted and not cut. */
  predicate SimulatorAllows(p: Config, rest: seq<Entry>, addr: bv64, len: bv64) {
    Permitted(Programmed(p, rest), 0, addr, Load, PRV_S) && Homogeneous(Programmed(p, rest), addr, len)
  }

  predicate Readable(p: Config) { p.cfg & PMP_R != 0 }

  // The background entry and the switched-off ones

  lemma BackgroundCovers(base: bv64, x: bv64)
    ensures Matches(base, Entry2(), x)
  {
  }

  lemma BackgroundHomogeneous(base: bv64, addr: bv64, len: bv64)
    requires PowerOfTwo(len)
    ensures EntryHomogeneous(base, Entry2(), addr, len)
  {
  }

  lemma OffNeverCovers(base: bv64, e: Entry, x: bv64)
    requires !Active(e)
    ensures !Covers(base, e, x)
  {
  }

  lemma AlwaysReadable(p: Config, rest: seq<Entry>, addr: bv64)
    requires Readable(p)
    ensures Permitted(Programmed(p, rest), 0, addr, Load, PRV_S)
  {
    BackgroundCovers(Tor(Entry1(p)), addr);
    MatchesIsCovers(Tor(Entry1(p)), Entry2(), addr);
    hide Matches, Covers, Readable, Tor, NapotMask;
    var entries := Programmed(p, rest);
    ReadableGrants(p);
    assert entries[0] == Entry0(p) && entries[1] == Entry1(p) && entries[2] == Entry2();
    OffNeverCovers(BaseOf(entries, 0), Entry0(p), addr);
    assert Permitted(entries, 2, addr, Load, PRV_S);
    assert Permitted(entries, 1, addr, Load, PRV_S);
  }

  lemma ReadableGrants(p: Config)
    requires Readable(p)
    ensures Grants(p.cfg, Load, PRV_S) && Grants(Entry2().cfg, Load, PRV_S) && !Active(Entry0(p))
  {
  }

  lemma OnlyEntryUnderTest(p: Config, rest: seq<Entry>, addr: bv64, len: bv64)
    requires PowerOfTwo(len) && AllOff(rest)
    ensures Homogeneous(Programmed(p, rest), addr, len) <==>
      EntryHomogeneous(Tor(Entry0(p)), Entry1(p), addr, len)
  {
    hide PowerOfTwo, Tor;
    var entries := Programmed(p, rest);
    BackgroundHomogeneous(BaseOf(entries, 2), addr, len);
    forall i | 0 <= i < |entries| && i != 1
      ensures EntryHomogeneous(BaseOf(entries, i), entries[i], addr, len)
    {
      if i >= 3 {
        assert entries[i] == rest[i - 3];
      }
    }
  }

  // Word granularity

  predicate WordAligned(t: bv64) { BlockOf(t, 4) == t }

  lemma TorWordAligned(e: Entry)
    ensures WordAligned(Tor(e))
  {
  }

  lemma FourIsPower()
    ensures PowerOfTwo(4)
  {
  }

  lemma LeqByWord(t: bv64, x: bv64)
    requires WordAligned(t)
    ensures Leq(t, x) <==> Leq(t, BlockOf(x, 4))
  {
    hide BlockOf, PowerOfTwo, Leq;
    FourIsPower();
    LeqByBlock(t, x, 4);
  }

  lemma AgreeByWord(x: bv64, m: bv64)
    requires m & 3 == 3
    ensures Agree(x, BlockOf(x, 4), !m)
  {
  }

  lemma RegionHasWord(e: Entry)
    ensures RegionMask(e) & 3 == 3
  {
  }

  lemma RegionByWord(e: Entry, x: bv64)
    ensures InRegion(e, x) == InRegion(e, BlockOf(x, 4))
  {
    hide *;
    RegionHasWord(e);
    AgreeByWord(x, RegionMask(e));
    AgreeIsKeep(x, BlockOf(x, 4), !RegionMask(e));
    RegionKeeps(e, x);
    RegionKeeps(e, BlockOf(x, 4));
  }

  lemma RegionKeeps(e: Entry, x: bv64)
    ensures InRegion(e, x) <==> Keep(x, !RegionMask(e)) == Keep(Tor(e), !RegionMask(e))
  {
    hide Keep, RegionMask, Tor;
  }

  /** No entry distinguishes bytes of one word. */
  lemma CoversByWord(base: bv64, e: Entry, x: bv64)
    requires WordAligned(base)
    ensures Covers(base, e, x) == Covers(base, e, BlockOf(x, 4))
  {
    hide InRegion, Leq, Tor, BlockOf, Active, IsTor, WordAligned;
    TorWordAligned(e);
    RegionByWord(e, x);
    LeqByWord(base, x);
    LeqByWord(Tor(e), x);
  }

  lemma WithinWord(x: bv64, len: bv64)
    requires len == 1 || len == 2 || len == 4
    ensures (len - 1) & !(4 - 1) == 0
  {
  }

  lemma SmallBlockInWord(x: bv64, addr: bv64, len: bv64)
    requires len == 1 || len == 2 || len == 4
    requires BlockOf(x, len) == BlockOf(addr, len)
    ensures BlockOf(x, 4) == BlockOf(addr, 4)
  {
    hide *;
    WithinWord(x, len);
    NestedMasks(x, len, 4);
    NestedMasks(addr, len, 4);
  }

  predicate InUpperWord(x: bv64) { BitSet(x, 4) }

  function WithFour(x: bv64): bv64 { x | 4 }

  lemma LowerInBlock(x: bv64)
    requires !InUpperWord(x)
    ensures BlockOf(x, 4) == BlockOf(x, 8)
  {
  }

  lemma UpperInBlock(x: bv64)
    requires InUpperWord(x)
    ensures BlockOf(x, 4) == WithFour(BlockOf(x, 8))
  {
  }

  lemma UpperIsNext(addr: bv64)
    requires Aligned(addr, 8)
    ensures WithFour(addr) == NextWord(addr)
  {
  }

  lemma HalvesOfBlock(x: bv64, addr: bv64)
    requires Aligned(addr, 8) && BlockOf(x, 8) == addr
    ensures BlockOf(x, 4) == addr || BlockOf(x, 4) == NextWord(addr)
  {
    hide *;
    if InUpperWord(x) {
      UpperInBlock(x);
      UpperIsNext(addr);
    } else {
      LowerInBlock(x);
    }
  }

  /** An empty top-of-range entry inside a double word: it ends where it starts, in the middle. */
  predicate InMiddle(p: Config, addr: bv64) {
    IsTorConfig(p) && Tor(Entry0(p)) == NextWord(addr) && Tor(Entry1(p)) == NextWord(addr)
  }

  lemma SpoilsNoWord(base: bv64, tor: bv64, addr: bv64, len: bv64)
    requires len == 1 || len == 2 || len == 4
    requires WordAligned(base)
    ensures !Spoils(base, tor, addr, len)
  {
    hide Leq, BlockOf, WordAligned;
    if Spoils(base, tor, addr, len) {
      SmallBlockInWord(base, addr, len);
      WordStart(base, addr);
      Transitive(tor, base, addr);
    }
  }

  lemma WordStart(t: bv64, x: bv64)
    requires WordAligned(t) && BlockOf(t, 4) == BlockOf(x, 4)
    ensures Leq(t, x)
  {
    hide Leq, BlockOf;
    BlockBelow(x, 4);
  }

  lemma WordOfDoubleWord(t: bv64, addr: bv64)
    requires WordAligned(t) && BlockOf(t, 8) == addr
    ensures t == addr || t == NextWord(addr)
  {
  }

  lemma NextIsAbove(addr: bv64)
    requires Aligned(addr, 8)
    ensures !Leq(NextWord(addr), addr)
  {
  }

  lemma UpperHalf(addr: bv64)
    requires Aligned(addr, 8)
    ensures BlockOf(NextWord(addr), 8) == addr
  {
  }

  /** An empty range of whole words spoils a double word only from the middle of it. */
  lemma SpoilsFromMiddle(base: bv64, tor: bv64, addr: bv64)
    requires WordAligned(base) && WordAligned(tor) && Aligned(addr, 8)
    ensures Spoils(base, tor, addr, 8) <==> base == NextWord(addr) && tor == NextWord(addr)
  {
    hide Leq, BlockOf, WordAligned, Aligned, NextWord, PowerOfTwo;
    AlignedFacts(addr, 8);
    UpperHalf(addr);
    NextIsAbove(addr);
    Reflexive(NextWord(addr));
    if Spoils(base, tor, addr, 8) {
      Total(tor, addr);
      BlockMonotone(addr, tor, 8);
      BlockMonotone(tor, base, 8);
      Antisymmetric(addr, BlockOf(tor, 8));
      SameIsEqual(BlockOf(tor, 8), addr);
      WordOfDoubleWord(base, addr);
      WordOfDoubleWord(tor, addr);
      Reflexive(addr);
    }
  }

  /** The part of the homogeneity test that concerns empty ranges. */
  predicate SpoiledBy(p: Config, addr: bv64, len: bv64) {
    ActiveConfig(p) && IsTorConfig(p) && Spoils(Tor(Entry0(p)), Tor(Entry1(p)), addr, len)
  }

  lemma SpoiledParts(p: Config, addr: bv64, len: bv64)
    ensures SpoiledBy(p, addr, len) <==>
      Active(Entry1(p)) && IsTor(Entry1(p)) && Spoils(Tor(Entry0(p)), Tor(Entry1(p)), addr, len)
  {
    hide Spoils, Tor;
  }

  lemma SmallAccess(p: Config, addr: bv64, len: bv64)
    requires len == 1 || len == 2 || len == 4
    requires Aligned(addr, len)
    ensures EntryHomogeneous(Tor(Entry0(p)), Entry1(p), addr, len)
  {
    hide *;
    var base, e := Tor(Entry0(p)), Entry1(p);
    TorWordAligned(Entry0(p));
    SpoilsNoWord(base, Tor(e), addr, len);
    var x := EntryExact(base, e, addr, len);
    BlockIsRange(x, addr, len);
    SmallBlockInWord(x, addr, len);
    CoversByWord(base, e, x);
    CoversByWord(base, e, addr);
  }

  lemma UpperWord(addr: bv64)
    requires Aligned(addr, 8)
    ensures WordAligned(NextWord(addr)) && WordAligned(addr)
  {
  }

  lemma DoubleWordUncut(p: Config, addr: bv64)
    requires Aligned(addr, 8) && HalvesCoveredAlike(p, addr)
    requires !SpoiledBy(p, addr, 8)
    ensures EntryHomogeneous(Tor(Entry0(p)), Entry1(p), addr, 8)
  {
    hide *;
    var base, e := Tor(Entry0(p)), Entry1(p);
    AlignedFacts(addr, 8);
    SpoiledParts(p, addr, 8);
    HalvesCovered(p, addr);
    var x := EntryExact(base, e, addr, 8);
    BlockIsRange(x, addr, 8);
    HalvesOfBlock(x, addr);
    TorWordAligned(Entry0(p));
    CoversByWord(base, e, x);
    UpperWord(addr);
    AlignedWord(addr);
  }

  lemma AlignedWord(addr: bv64)
    requires WordAligned(addr)
    ensures BlockOf(addr, 4) == addr
  {
    hide BlockOf;
  }

  lemma DoubleWordCut(p: Config, addr: bv64)
    requires Aligned(addr, 8) && EntryHomogeneous(Tor(Entry0(p)), Entry1(p), addr, 8)
    ensures HalvesCoveredAlike(p, addr) && !SpoiledBy(p, addr, 8)
  {
    hide *;
    AlignedFacts(addr, 8);
    SpoiledParts(p, addr, 8);
    var x := EntryExact(Tor(Entry0(p)), Entry1(p), addr, 8);
    HalvesCovered(p, addr);
    UpperHalf(addr);
    EntryAgrees(Tor(Entry0(p)), Entry1(p), addr, 8, NextWord(addr));
  }

  /** An entry passes the test on a double word exactly when it covers both halves or none, and
      is not an empty range in the middle. */
  lemma DoubleWord(p: Config, addr: bv64)
    requires ActiveConfig(p) && Aligned(addr, 8)
    ensures EntryHomogeneous(Tor(Entry0(p)), Entry1(p), addr, 8) <==>
      HalvesCoveredAlike(p, addr) && !InMiddle(p, addr)
  {
    hide *;
    SpoiledInMiddle(p, addr);
    if EntryHomogeneous(Tor(Entry0(p)), Entry1(p), addr, 8) {
      DoubleWordCut(p, addr);
    } else if HalvesCoveredAlike(p, addr) && !InMiddle(p, addr) {
      DoubleWordUncut(p, addr);
    }
  }

  lemma SpoiledInMiddle(p: Config, addr: bv64)
    requires ActiveConfig(p) && Aligned(addr, 8)
    ensures SpoiledBy(p, addr, 8) <==> InMiddle(p, addr)
  {
    hide *;
    Kinds(p);
    MiddleParts(p, addr);
    SpoiledParts(p, addr, 8);
    TorWordAligned(Entry0(p));
    TorWordAligned(Entry1(p));
    SpoilsFromMiddle(Tor(Entry0(p)), Tor(Entry1(p)), addr);
  }

  lemma MiddleParts(p: Config, addr: bv64)
    ensures InMiddle(p, addr) <==>
      IsTorConfig(p) && Tor(Entry0(p)) == NextWord(addr) && Tor(Entry1(p)) == NextWord(addr)
  {
    hide Tor, NextWord, IsTorConfig;
  }

  /** The entry covers both words of the double word or neither. */
  predicate HalvesCoveredAlike(p: Config, addr: bv64) {
    Covers(Tor(Entry0(p)), Entry1(p), addr) == Covers(Tor(Entry0(p)), Entry1(p), NextWord(addr))
  }

  lemma HalvesCovered(p: Config, addr: bv64)
    ensures HalvesCoveredAlike(p, addr) <==>
      Covers(Tor(Entry0(p)), Entry1(p), addr) == Covers(Tor(Entry0(p)), Entry1(p), NextWord(addr))
  {
    hide Covers, Tor, NextWord;
  }

  // The two halves of a double word in the test's window

  /** The last double word of the address space. */
  predicate LastDoubleWord(addr: bv64) { addr == 0xFFFF_FFFF_FFFF_FFF8 }

  lemma ScaleIsTor(e: Entry)
    ensures Scale(e.addr) == Tor(e)
  {
  }

  lemma TorHit(p: Config, x: bv64)
    requires IsTorConfig(p)
    ensures Hit(p, x) == Covers(Tor(Entry0(p)), Entry1(p), x)
  {
    hide Scale, Tor, Leq;
    ScaleIsTor(Entry0(p));
    ScaleIsTor(Entry1(p));
  }

  predicate TopWord(x: bv64) { x == 0xFFFF_FFFF_FFFF_FFFC }

  function NextWord(lo: bv64): bv64 { lo + 4 }

  lemma ScaleNext(a: bv64)
    ensures Scale(Plus(a, 1)) == NextWord(a << 2) && Scale(a) == a << 2
  {
    hide *;
    PlusOne(a);
    ScaleSucc(a);
    NextAfterLast(a);
    ScaleShifts(a);
  }

  lemma PlusOne(a: bv64)
    ensures Plus(a, 1) == Succ(a)
  {
  }

  lemma ScaleShifts(a: bv64)
    ensures Scale(a) == a << 2
  {
  }

  lemma NextAfterLast(a: bv64)
    ensures NextWord(a << 2) == Succ(LastByte(a))
  {
  }

  lemma WordEnd(lo: bv64)
    requires WordAligned(lo) && !TopWord(lo)
    ensures Succ(lo + 3) == NextWord(lo) && !Zero(Succ(lo + 3))
  {
  }

  lemma InWord(lo: bv64, x: bv64)
    requires WordAligned(lo) && !TopWord(lo) && BlockOf(x, 4) == BlockOf(lo, 4)
    ensures !Leq(NextWord(lo), x)
  {
  }

  lemma NotInWord(lo: bv64, x: bv64)
    requires WordAligned(lo) && !TopWord(lo) && Leq(lo, x) && !Leq(NextWord(lo), x)
    ensures BlockOf(x, 4) == BlockOf(lo, 4)
  {
    hide *;
    WordEnd(lo);
    if !Leq(x, lo + 3) { Discrete(x, lo + 3); }
    WordIsBlock(lo);
    BlockIsRange(x, lo, 4);
  }

  lemma WordIsBlock(lo: bv64)
    requires WordAligned(lo)
    ensures Aligned(lo, 4)
  {
  }

  lemma Na4Mask(e: Entry)
    requires IsNa4(e)
    ensures RegionMask(e) == 4 - 1
  {
  }

  lemma Na4Region(e: Entry, x: bv64)
    requires IsNa4(e)
    ensures InRegion(e, x) <==> BlockOf(x, 4) == BlockOf(Tor(e), 4)
  {
    hide *;
    Na4Mask(e);
    RegionKeeps(e, x);
    BlockKeeps(x, 4);
    BlockKeeps(Tor(e), 4);
  }

  lemma NeverBelowWrapped(lo: bv64, x: bv64)
    requires TopWord(lo)
    ensures Leq(NextWord(lo), x)
  {
  }

  lemma NotInTopWord(lo: bv64, x: bv64)
    requires TopWord(lo) && WordAligned(x) && !TopWord(x)
    ensures BlockOf(x, 4) != BlockOf(lo, 4)
  {
  }

  lemma InsideParts(lo: bv64, hi: bv64, x: bv64)
    ensures Inside(lo, hi, x) <==> Leq(lo, x) && !Leq(hi, x)
  {
    hide Leq;
  }

  lemma WordInside(lo: bv64, x: bv64)
    requires WordAligned(lo) && WordAligned(x) && !(TopWord(lo) && TopWord(x))
    ensures Inside(lo, NextWord(lo), x) <==> BlockOf(x, 4) == BlockOf(lo, 4)
  {
    hide *;
    InsideParts(lo, NextWord(lo), x);
    if TopWord(lo) {
      NeverBelowWrapped(lo, x);
      NotInTopWord(lo, x);
    } else if Inside(lo, NextWord(lo), x) {
      NotInWord(lo, x);
    } else if BlockOf(x, 4) == BlockOf(lo, 4) {
      InWord(lo, x);
      WordIsBlock(lo);
      BlockIsRange(x, lo, 4);
    }
  }

  lemma Na4Window(p: Config)
    requires IsNa4(Entry1(p))
    ensures Low(p) == Tor(Entry1(p)) && High(p) == NextWord(Tor(Entry1(p)))
  {
    ScaleNext(p.a1);
    hide Scale, Plus, NapotStart, NapotRange, NextWord;
  }

  /** A four-byte entry: the test's half-open window holds the words of the MMU's region. */
  lemma Na4Hit(p: Config, x: bv64)
    requires IsNa4(Entry1(p)) && WordAligned(x) && !(TopWord(Tor(Entry1(p))) && TopWord(x))
    ensures Hit(p, x) == InRegion(Entry1(p), x)
  {
    Na4Window(p);
    hide Low, High, Inside, InRegion, Tor, BlockOf, WordAligned, TopWord, NextWord, IsNa4;
    TorWordAligned(Entry1(p));
    Na4Region(Entry1(p), x);
    WordInside(Tor(Entry1(p)), x);
  }

  lemma NapotBounds(a: bv64)
    ensures BlockOf(Scale(NapotStart(a)), 8) == Scale(NapotStart(a))
    ensures BlockOf(Scale(Plus(NapotStart(a), NapotRange(a))), 8) == Scale(Plus(NapotStart(a), NapotRange(a)))
  {
  }

  lemma EightIsPower()
    ensures PowerOfTwo(8)
  {
  }

  lemma NapotWindow(p: Config)
    requires IsNapotConfig(p)
    ensures BlockOf(Low(p), 8) == Low(p) && BlockOf(High(p), 8) == High(p)
  {
    NapotBounds(p.a1);
    hide Scale, Plus, NapotStart, NapotRange, BlockOf;
  }

  /** A naturally aligned window never separates the halves of a double word. */
  lemma NapotHitsBoth(p: Config, addr: bv64)
    requires IsNapotConfig(p) && Aligned(addr, 8)
    ensures Hit(p, addr) == Hit(p, NextWord(addr))
  {
    hide *;
    NapotWindow(p);
    EightIsPower();
    AlignedFacts(addr, 8);
    UpperHalf(addr);
    LeqByBlock(Low(p), NextWord(addr), 8);
    LeqByBlock(High(p), NextWord(addr), 8);
    HitParts(p, addr);
    HitParts(p, NextWord(addr));
  }

  lemma HitParts(p: Config, x: bv64)
    ensures Hit(p, x) <==> Leq(Low(p), x) && !Leq(High(p), x)
  {
    hide Leq, Low, High;
  }

  lemma RegionHasDoubleWord(e: Entry)
    requires !IsNa4(e)
    ensures RegionMask(e) & 7 == 7
  {
  }

  lemma AgreeByDoubleWord(addr: bv64, m: bv64)
    requires Aligned(addr, 8) && m & 7 == 7
    ensures Agree(addr, NextWord(addr), !m)
  {
  }

  lemma NapotCoversBoth(e: Entry, addr: bv64)
    requires !IsNa4(e) && Aligned(addr, 8)
    ensures InRegion(e, addr) == InRegion(e, NextWord(addr))
  {
    hide *;
    RegionHasDoubleWord(e);
    AgreeByDoubleWord(addr, RegionMask(e));
    AgreeIsKeep(addr, NextWord(addr), !RegionMask(e));
    RegionKeeps(e, addr);
    RegionKeeps(e, NextWord(addr));
  }

  lemma HalvesBelowTop(addr: bv64)
    requires Aligned(addr, 8)
    ensures !TopWord(addr)
    ensures TopWord(NextWord(addr)) <==> LastDoubleWord(addr)
  {
  }

  /** The loads whose window wraps: the last double word, and an entry for its upper word alone. */
  predicate Wraps(p: Config, addr: bv64) {
    LastDoubleWord(addr) && IsNa4(Entry1(p)) && TopWord(Tor(Entry1(p)))
  }

  predicate HalvesHitAlike(p: Config, addr: bv64) {
    Hit(p, addr) == Hit(p, NextWord(addr))
  }

  lemma HalvesHit(p: Config, addr: bv64)
    ensures HalvesHitAlike(p, addr) <==> Hit(p, addr) == Hit(p, NextWord(addr))
  {
    hide Hit, NextWord;
  }

  lemma WrapsParts(p: Config, addr: bv64)
    ensures Wraps(p, addr) <==> LastDoubleWord(addr) && IsNa4(Entry1(p)) && TopWord(Tor(Entry1(p)))
  {
    hide LastDoubleWord, IsNa4, TopWord, Tor;
  }

  lemma TorHalves(p: Config, addr: bv64)
    requires ActiveConfig(p) && IsTorConfig(p)
    ensures HalvesHitAlike(p, addr) == HalvesCoveredAlike(p, addr)
  {
    hide *;
    HalvesHit(p, addr);
    HalvesCovered(p, addr);
    TorHit(p, addr);
    TorHit(p, NextWord(addr));
  }

  lemma NapotHalves(p: Config, addr: bv64)
    requires ActiveConfig(p) && IsNapotConfig(p) && Aligned(addr, 8)
    ensures HalvesHitAlike(p, addr) && HalvesCoveredAlike(p, addr)
  {
    hide *;
    HalvesHit(p, addr);
    HalvesCovered(p, addr);
    Kinds(p);
    NapotIsNotTor(p);
    NapotHitsBoth(p, addr);
    NapotCoversBoth(Entry1(p), addr);
    CoversNapot(Tor(Entry0(p)), Entry1(p), addr);
    CoversNapot(Tor(Entry0(p)), Entry1(p), NextWord(addr));
  }

  lemma NapotIsNotTor(p: Config)
    requires IsNapotConfig(p)
    ensures !IsTorConfig(p)
  {
  }

  lemma Na4Halves(p: Config, addr: bv64)
    requires ActiveConfig(p) && IsNa4(Entry1(p)) && !IsTorConfig(p) && Aligned(addr, 8) && !Wraps(p, addr)
    ensures HalvesHitAlike(p, addr) == HalvesCoveredAlike(p, addr)
  {
    hide *;
    HalvesHit(p, addr);
    HalvesCovered(p, addr);
    WrapsParts(p, addr);
    Kinds(p);
    HalvesBelowTop(addr);
    UpperWord(addr);
    Na4Hit(p, addr);
    Na4Hit(p, NextWord(addr));
    CoversNapot(Tor(Entry0(p)), Entry1(p), addr);
    CoversNapot(Tor(Entry0(p)), Entry1(p), NextWord(addr));
  }

  /** The four bytes at the top of the address space: the window's end wraps to zero and nothing
      is hit, where the MMU sees the access cut. */
  lemma WrappedHalves(p: Config, addr: bv64)
    requires ActiveConfig(p) && !IsTorConfig(p) && Aligned(addr, 8) && Wraps(p, addr)
    ensures HalvesHitAlike(p, addr) && !HalvesCoveredAlike(p, addr)
  {
    hide *;
    HalvesHit(p, addr);
    HalvesCovered(p, addr);
    WrapsParts(p, addr);
    Kinds(p);
    HalvesBelowTop(addr);
    UpperWord(addr);
    Na4Window(p);
    var top := Tor(Entry1(p));
    HitParts(p, addr);
    HitParts(p, NextWord(addr));
    NeverBelowWrapped(top, addr);
    NeverBelowWrapped(top, NextWord(addr));
    Na4Region(Entry1(p), addr);
    Na4Region(Entry1(p), NextWord(addr));
    NotInTopWord(top, addr);
    OneTopWord(top, NextWord(addr));
    CoversNapot(Tor(Entry0(p)), Entry1(p), addr);
    CoversNapot(Tor(Entry0(p)), Entry1(p), NextWord(addr));
  }

  lemma OneTopWord(x: bv64, y: bv64)
    requires TopWord(x) && TopWord(y)
    ensures x == y
  {
  }

  /** Whatever kind the entry is, the window separates the halves of a double word exactly when
      the entry does, but for the one word at which the window wraps. */
  lemma HalvesAgree(p: Config, addr: bv64)
    requires ActiveConfig(p) && Aligned(addr, 8)
    ensures HalvesHitAlike(p, addr) == HalvesCoveredAlike(p, addr) <==> !Wraps(p, addr)
  {
    hide *;
    Kinds(p);
    WrapsParts(p, addr);
    if IsTorConfig(p) {
      TorHalves(p, addr);
      TorIsNotNa4(p);
    } else if IsNapotConfig(p) {
      NapotHalves(p, addr);
    } else if Wraps(p, addr) {
      WrappedHalves(p, addr);
    } else {
      Na4Halves(p, addr);
    }
  }

  lemma TorIsNotNa4(p: Config)
    requires IsTorConfig(p)
    ensures !IsNa4(Entry1(p))
  {
  }

  lemma Kinds(p: Config)
    requires ActiveConfig(p)
    ensures Active(Entry1(p))
    ensures IsTor(Entry1(p)) == IsTorConfig(p)
    ensures IsNa4(Entry1(p)) == (!IsTorConfig(p) && !IsNapotConfig(p))
  {
  }

  lemma SizeIsPower(size: nat)
    requires AccessSize(size)
    ensures SizeWord(size) == 1 || SizeWord(size) == 2 || SizeWord(size) == 4 || SizeWord(size) == 8
    ensures size < 8 <==> SizeWord(size) != 8
    ensures size == 8 || size < 8
  {
  }

  /** The loads that the test and the simulator judge differently: double words, with an empty
      top-of-range entry in the middle, or at the end of the address space with an entry for the
      last four bytes. */
  predicate Misjudged(p: Config, addr: bv64, size: nat) {
    size == 8 && ActiveConfig(p) && (InMiddle(p, addr) || Wraps(p, addr))
  }

  /** The MMU grants every load within a word; a double word must be covered in both halves or in
      none, and must not have an empty entry in its middle. */
  lemma SimulatorVerdict(p: Config, rest: seq<Entry>, addr: bv64, len: bv64)
    requires len == 1 || len == 2 || len == 4 || len == 8
    requires Aligned(addr, len) && Readable(p) && AllOff(rest)
    ensures SimulatorAllows(p, rest, addr, len) <==>
      !ActiveConfig(p) || len != 8 || (HalvesCoveredAlike(p, addr) && !InMiddle(p, addr))
  {
    hide *;
    AlignedFacts(addr, len);
    SimulatorParts(p, rest, addr, len);
    AlwaysReadable(p, rest, addr);
    OnlyEntryUnderTest(p, rest, addr, len);
    if !ActiveConfig(p) {
      OffHomogeneous(p, addr, len);
    } else if len == 8 {
      DoubleWord(p, addr);
    } else {
      SmallAccess(p, addr, len);
    }
  }

  /** The test's hit counting predicts the simulator: for every readable entry of any kind and
      every aligned supervisor load, it expects no trap exactly when the MMU grants the access,
      but for the two kinds of double word on which they differ. */
  lemma TestPredictsSimulator(p: Config, rest: seq<Entry>, addr: bv64, size: nat)
    requires AccessSize(size) && Aligned(addr, SizeWord(size))
    requires Readable(p) && AllOff(rest)
    ensures TestVerdict(p, addr, size) == SimulatorAllows(p, rest, addr, SizeWord(size)) <==>
      !Misjudged(p, addr, size)
  {
    hide *;
    SizeIsPower(size);
    VerdictParts(p, addr, size);
    SimulatorVerdict(p, rest, addr, SizeWord(size));
    if ActiveConfig(p) && size == 8 {
      HalvesAgree(p, addr);
      if InMiddle(p, addr) { EmptyInMiddle(p, addr); }
    }
  }

  lemma VerdictParts(p: Config, addr: bv64, size: nat)
    requires AccessSize(size)
    ensures TestVerdict(p, addr, size) <==> !ActiveConfig(p) || size < 8 || HalvesHitAlike(p, addr)
    ensures Misjudged(p, addr, size) <==> size == 8 && ActiveConfig(p) && (InMiddle(p, addr) || Wraps(p, addr))
  {
    hide Hit, ActiveConfig, InMiddle, Wraps;
  }

  lemma SimulatorParts(p: Config, rest: seq<Entry>, addr: bv64, len: bv64)
    ensures SimulatorAllows(p, rest, addr, len) <==>
      Permitted(Programmed(p, rest), 0, addr, Load, PRV_S) && Homogeneous(Programmed(p, rest), addr, len)
  {
    hide Permitted, Programmed, Homogeneous;
  }

  /** The empty entry covers neither half and wraps nowhere. */
  lemma EmptyInMiddle(p: Config, addr: bv64)
    requires InMiddle(p, addr)
    ensures HalvesCoveredAlike(p, addr) && !Wraps(p, addr)
  {
    hide *;
    MiddleParts(p, addr);
    WrapsParts(p, addr);
    TorIsNotNa4(p);
    HalvesCovered(p, addr);
    TorIsTor(p);
    EmptyCoversNothing(Tor(Entry0(p)), Entry1(p), addr);
    EmptyCoversNothing(Tor(Entry0(p)), Entry1(p), NextWord(addr));
  }

  lemma TorIsTor(p: Config)
    requires IsTorConfig(p)
    ensures IsTor(Entry1(p))
  {
  }

  lemma EmptyCoversNothing(base: bv64, e: Entry, x: bv64)
    requires IsTor(e) && Tor(e) == base
    ensures !Covers(base, e, x)
  {
    hide Leq, Tor;
  }

  lemma OffHomogeneous(p: Config, addr: bv64, len: bv64)
    requires !ActiveConfig(p)
    ensures EntryHomogeneous(Tor(Entry0(p)), Entry1(p), addr, len)
  {
  }

  /** One input of each kind on which the test and the simulator differ: the last four bytes of
      the address space, where the test expects no trap because the window's end has wrapped, and an
      empty range in the middle of the first double word. */
  lemma MisjudgedInputs()
    ensures var p := Config(PMP_NA4 | PMP_R, 0, 0x3FFF_FFFF_FFFF_FFFF);
      var addr: bv64 := 0xFFFF_FFFF_FFFF_FFF8;
      Readable(p) && TestVerdict(p, addr, 8) && !SimulatorAllows(p, [], addr, 8)
    ensures var p := Config(PMP_TOR | PMP_R, 1, 1);
      Readable(p) && TestVerdict(p, 0, 8) && !SimulatorAllows(p, [], 0, 8)
  {
    var wrapped := Config(PMP_NA4 | PMP_R, 0, 0x3FFF_FFFF_FFFF_FFFF);
    var addr: bv64 := 0xFFFF_FFFF_FFFF_FFF8;
    assert !EntryHomogeneous(BaseOf(Programmed(wrapped, []), 1), Programmed(wrapped, [])[1], addr, 8);
    assert !Hit(wrapped, addr) && !Hit(wrapped, addr + 4);
    var empty := Config(PMP_TOR | PMP_R, 1, 1);
    assert !EntryHomogeneous(BaseOf(Programmed(empty, []), 1), Programmed(empty, [])[1], 0, 8);
    assert !Hit(empty, 0) && !Hit(empty, 4);
  }

  // ---------------------------------------------------------------------------------------
  // Encoding a range

  /** `set_pmp_napot`: the entry for a naturally aligned power-of-two range. */
  function SetNapot(base: bv64, range: bv64): Config {
    Config(PMP_R | (if range > GRANULE then PMP_NAPOT else PMP_NA4), 0, NapotRegister(base, range))
  }

  /** `set_pmp_range`: the entry pair for an arbitrary range of whole words. */
  function SetRange(base: bv64, range: bv64): Config {
    Config(PMP_TOR | PMP_R, WordOf(base), WordOf(Plus(base, range)))
  }

  predicate Encodable(base: bv64, range: bv64) {
    Aligned(base, range) && range & 3 == 0
  }

  function NapotRegister(base: bv64, range: bv64): bv64 { (base + (range / 2 - 1)) >> 2 }

  lemma EncodedOnes(base: bv64, range: bv64)
    requires Aligned(base, range) && range & 7 == 0
    ensures (LowOnes(NapotRegister(base, range)) << 3) | 7 == range - 1
  {
  }

  lemma EncodedBlock(base: bv64, range: bv64)
    requires Encodable(base, range)
    ensures BlockOf(NapotRegister(base, range) << 2, range) == base
  {
  }

  lemma EncodedKind(base: bv64, range: bv64)
    requires Encodable(base, range)
    ensures IsNa4(Entry1(SetNapot(base, range))) == (range == 4)
    ensures range != 4 ==> range & 7 == 0
    ensures Active(Entry1(SetNapot(base, range))) && !IsTor(Entry1(SetNapot(base, range)))
  {
  }

  lemma EncodedMask(base: bv64, range: bv64)
    requires Encodable(base, range)
    ensures RegionMask(Entry1(SetNapot(base, range))) == range - 1
  {
    EncodedKind(base, range);
    hide IsNa4, Encodable, TrailingOnes, LowOnes;
    if range != 4 {
      EncodableAligned(base, range);
      EncodedOnes(base, range);
      TrailingOnesTrick(NapotRegister(base, range));
    }
  }

  lemma EncodableAligned(base: bv64, range: bv64)
    requires Encodable(base, range)
    ensures Aligned(base, range)
  {
    hide Aligned;
  }

  lemma RegisterTor(base: bv64, range: bv64)
    ensures Tor(Entry1(SetNapot(base, range))) == NapotRegister(base, range) << 2
  {
    hide NapotRegister;
  }

  /** What the test encodes is what the MMU protects: exactly the bytes of the range. */
  lemma NapotRoundTripMmu(base: bv64, range: bv64, x: bv64)
    requires Encodable(base, range)
    ensures Covers(0, Entry1(SetNapot(base, range)), x) <==> InRange(base, range, x)
  {
    var e := Entry1(SetNapot(base, range));
    EncodedKind(base, range);
    hide *;
    EncodableAligned(base, range);
    AlignedRange(base, range, x);
    EncodedMask(base, range);
    EncodedBlock(base, range);
    RegionKeeps(e, x);
    RegisterTor(base, range);
    BlockKeeps(x, range);
    BlockKeeps(Tor(e), range);
    BlockIsRange(x, base, range);
    AlignedFacts(base, range);
    CoversNapot(0, e, x);
  }

  lemma CoversNapot(base: bv64, e: Entry, x: bv64)
    requires Active(e) && !IsTor(e)
    ensures Covers(base, e, x) == InRegion(e, x)
  {
    hide InRegion;
  }

  function EighthOf(x: bv64): bv64 { x >> 3 }

  /** The ones below `k`, put under the bits of `b`. */
  function Fill(b: bv64, k: bv64): bv64 { b | (k - 1) }

  /** `k` is a power of two and `b` a multiple of twice as much. */
  predicate Fits(b: bv64, k: bv64) { k != 0 && k & (k - 1) == 0 && b & ((k << 1) - 1) == 0 }

  /** The register of a range of at least two words: the start, and ones below half its length. */
  lemma RegisterForm(base: bv64, range: bv64)
    requires Aligned(base, range) && range & 7 == 0
    ensures NapotRegister(base, range) == Fill(WordOf(base), EighthOf(range))
  {
  }

  lemma FormFits(base: bv64, range: bv64)
    requires Aligned(base, range) && range & 7 == 0
    ensures Fits(WordOf(base), EighthOf(range))
  {
  }

  lemma OnesOfForm(b: bv64, k: bv64)
    requires Fits(b, k)
    ensures LowOnes(Fill(b, k)) == Offsets(k)
  {
  }

  lemma StartOfForm(b: bv64, k: bv64)
    requires Fits(b, k)
    ensures Clear(Fill(b, k), Offsets(k)) == b
  {
  }

  lemma NapotParts(a: bv64)
    ensures NapotStart(a) == Clear(a, LowOnes(a)) && NapotRange(a) == Twice(Succ(LowOnes(a)))
  {
    hide LowOnes;
  }

  lemma SuccOfOffsets(k: bv64)
    ensures Succ(Offsets(k)) == k
  {
  }

  lemma ScaleWord(base: bv64)
    requires WholeWords(base)
    ensures Scale(WordOf(base)) == base
  {
  }

  lemma EncodableWhole(base: bv64, range: bv64)
    requires Encodable(base, range)
    ensures WholeWords(base) && WholeWords(range)
  {
  }

  lemma TwiceEighth(range: bv64)
    requires range & 7 == 0
    ensures Twice(EighthOf(range)) == WordOf(range)
  {
  }

  /** The last byte of a word address. */
  function LastByte(a: bv64): bv64 { (a << 2) | 3 }

  lemma ScaleSucc(a: bv64)
    ensures Scale(Succ(a)) == Succ(LastByte(a))
  {
  }

  function Or(x: bv64, mask: bv64): bv64 { x | mask }

  predicate Disjoint(x: bv64, y: bv64, mask: bv64) { (x | y) & mask == 0 }

  lemma AlignedByOffsets(x: bv64, len: bv64)
    ensures Aligned(x, len) <==> !Zero(len) && Disjoint(x, len, Offsets(len))
  {
  }

  lemma EndByOffsets(x: bv64, len: bv64)
    ensures BlockEnd(x, len) == Or(x, Offsets(len))
  {
  }

  lemma OffsetsOfWords(range: bv64)
    requires WholeWords(range) && !Zero(range)
    ensures Offsets(range) == LastByte(Offsets(WordOf(range))) && !Zero(WordOf(range))
  {
  }

  lemma DisjointWords(x: bv64, y: bv64, mask: bv64)
    requires Disjoint(x, y, LastByte(mask))
    ensures Disjoint(WordOf(x), WordOf(y), mask)
  {
  }

  lemma LastByteOr(x: bv64, mask: bv64)
    requires WholeWords(x)
    ensures LastByte(Or(WordOf(x), mask)) == Or(x, LastByte(mask))
  {
  }

  lemma WordsAligned(base: bv64, range: bv64)
    requires Encodable(base, range)
    ensures Aligned(WordOf(base), WordOf(range))
    ensures LastByte(BlockEnd(WordOf(base), WordOf(range))) == BlockEnd(base, range)
  {
    hide *;
    EncodableAligned(base, range);
    EncodableWhole(base, range);
    AlignedByOffsets(base, range);
    AlignedByOffsets(WordOf(base), WordOf(range));
    OffsetsOfWords(range);
    DisjointWords(base, range, Offsets(WordOf(range)));
    EndByOffsets(base, range);
    EndByOffsets(WordOf(base), WordOf(range));
    LastByteOr(base, Offsets(WordOf(range)));
  }

  lemma PlusIsSucc(base: bv64, range: bv64)
    requires Aligned(base, range)
    ensures Plus(base, range) == Succ(BlockEnd(base, range))
  {
    hide *;
    EndIsNext(base, range);
    LastIs(base, range);
    BlockEndIsLast(base, range);
  }

  lemma LastIs(base: bv64, range: bv64)
    ensures Last(base, range) == base + (range - 1)
  {
  }

  /** The end of an aligned range, computed in words or in bytes. */
  lemma ScaleEnd(base: bv64, range: bv64)
    requires Encodable(base, range)
    ensures Scale(Plus(WordOf(base), WordOf(range))) == Plus(base, range)
  {
    hide *;
    EncodableAligned(base, range);
    WordsAligned(base, range);
    PlusIsSucc(base, range);
    PlusIsSucc(WordOf(base), WordOf(range));
    ScaleSucc(BlockEnd(WordOf(base), WordOf(range)));
  }

  lemma EncodedWindow(base: bv64, range: bv64)
    requires Encodable(base, range) && range & 7 == 0
    ensures Scale(NapotStart(NapotRegister(base, range))) == base
    ensures Scale(Plus(NapotStart(NapotRegister(base, range)), NapotRange(NapotRegister(base, range))))
         == Plus(base, range)
  {
    var b, k := WordOf(base), EighthOf(range);
    hide *;
    EncodableAligned(base, range);
    EncodableWhole(base, range);
    RegisterForm(base, range);
    FormFits(base, range);
    NapotParts(Fill(b, k));
    OnesOfForm(b, k);
    StartOfForm(b, k);
    SuccOfOffsets(k);
    TwiceEighth(range);
    ScaleWord(base);
    ScaleEnd(base, range);
  }

  lemma WordRegister(base: bv64)
    requires Encodable(base, 4)
    ensures NapotRegister(base, 4) == WordOf(base) && WordOf(4) == 1
  {
  }

  lemma EncodedWord(base: bv64)
    requires Encodable(base, 4)
    ensures Scale(NapotRegister(base, 4)) == base && Scale(Plus(NapotRegister(base, 4), 1)) == Plus(base, 4)
  {
    hide *;
    WordRegister(base);
    EncodableWhole(base, 4);
    ScaleWord(base);
    ScaleEnd(base, 4);
  }

  lemma EncodedFlags(base: bv64, range: bv64)
    requires Encodable(base, range)
    ensures !IsTorConfig(SetNapot(base, range))
    ensures IsNapotConfig(SetNapot(base, range)) <==> range != 4
    ensures range != 4 ==> range & 7 == 0
  {
    hide NapotRegister;
  }

  lemma NapotWindowOf(p: Config)
    requires IsNapotConfig(p)
    ensures Low(p) == Scale(NapotStart(p.a1)) && High(p) == Scale(Plus(NapotStart(p.a1), NapotRange(p.a1)))
  {
    hide NapotStart, NapotRange, Scale, Plus;
  }

  lemma WordWindowOf(p: Config)
    requires !IsNapotConfig(p) && !IsTorConfig(p)
    ensures Low(p) == Scale(p.a1) && High(p) == Scale(Plus(p.a1, 1))
  {
    hide Scale, Plus;
  }

  lemma NapotDecoded(base: bv64, range: bv64)
    requires Encodable(base, range)
    ensures Low(SetNapot(base, range)) == base && High(SetNapot(base, range)) == Plus(base, range)
  {
    var p := SetNapot(base, range);
    EncodedFlags(base, range);
    EncodableAligned(base, range);
    RegisterOf(base, range);
    hide *;
    if range == 4 {
      WordWindowOf(p);
      EncodedWord(base);
    } else {
      NapotWindowOf(p);
      EncodedWindow(base, range);
    }
  }

  lemma RegisterOf(base: bv64, range: bv64)
    ensures SetNapot(base, range).a1 == NapotRegister(base, range)
  {
    hide NapotRegister;
  }

  function WordOf(x: bv64): bv64 { x >> 2 }

  predicate WholeWords(x: bv64) { x & 3 == 0 }

  lemma WordRestores(e: Entry, x: bv64)
    requires WholeWords(x) && e.addr == WordOf(x)
    ensures Tor(e) == x && Scale(WordOf(x)) == x
  {
  }

  lemma SumOfWords(x: bv64, y: bv64)
    requires WholeWords(x) && WholeWords(y)
    ensures WholeWords(Plus(x, y))
  {
  }

  lemma TorConfigWindow(p: Config)
    requires IsTorConfig(p)
    ensures Low(p) == Scale(p.a0) && High(p) == Scale(p.a1)
  {
    hide Scale;
  }

  lemma SetRangeParts(base: bv64, range: bv64)
    ensures IsTorConfig(SetRange(base, range))
    ensures SetRange(base, range).a0 == WordOf(base) && SetRange(base, range).a1 == WordOf(Plus(base, range))
  {
    hide WordOf, Plus;
  }

  lemma RangeDecoded(base: bv64, range: bv64)
    requires WholeWords(base) && WholeWords(range)
    ensures Tor(Entry0(SetRange(base, range))) == base && Tor(Entry1(SetRange(base, range))) == Plus(base, range)
    ensures Low(SetRange(base, range)) == base && High(SetRange(base, range)) == Plus(base, range)
  {
    hide Tor, Scale, WordOf, Plus, WholeWords, IsTorConfig, SetRange, Low, High;
    var p := SetRange(base, range);
    SetRangeParts(base, range);
    TorConfigWindow(p);
    SumOfWords(base, range);
    WordRestores(Entry0(p), base);
    WordRestores(Entry1(p), Plus(base, range));
  }

  // The bytes of a range

  /** The bytes of a range, none being lost to wrap-around: those from `base` to the last one, or to
      the top of the address space if the range runs past it. */
  predicate InRange(base: bv64, range: bv64, x: bv64) {
    !Zero(range) && Leq(base, x) && (Leq(x, Last(base, range)) || !Leq(base, Last(base, range)))
  }

  /** The range ends below the top of the address space: the sum of start and length does not
      carry. */
  predicate EndsBelowTop(base: bv64, range: bv64) { Leq(base, Plus(base, range)) }

  function Last(base: bv64, range: bv64): bv64 { base + (range - 1) }

  /** An aligned range does not run past the top. */
  lemma AlignedRange(base: bv64, range: bv64, x: bv64)
    requires Aligned(base, range)
    ensures InRange(base, range, x) <==> Leq(base, x) && Leq(x, base + (range - 1))
  {
    hide *;
    AlignedLast(base, range);
    RangeParts(base, range, x);
    LastIs(base, range);
  }

  lemma AlignedLast(base: bv64, range: bv64)
    requires Aligned(base, range)
    ensures !Zero(range) && Leq(base, Last(base, range))
  {
    BlockEndIsLast(base, range);
    LastIs(base, range);
    EndIsAbove(base, range);
    hide Last, BlockEnd, Leq;
  }

  lemma EndIsAbove(base: bv64, range: bv64)
    ensures Leq(base, BlockEnd(base, range))
  {
  }

  lemma RangeParts(base: bv64, range: bv64, x: bv64)
    ensures InRange(base, range, x) <==>
      !Zero(range) && Leq(base, x) && (Leq(x, Last(base, range)) || !Leq(base, Last(base, range)))
  {
    hide Leq, Last, Zero;
  }

  lemma EndIsNext(base: bv64, range: bv64)
    ensures Plus(base, range) == Succ(Last(base, range))
  {
  }

  lemma BelowSucc(x: bv64, y: bv64)
    requires Leq(Succ(y), x) && Leq(x, y)
    ensures Zero(Succ(y))
  {
    hide *;
    Transitive(Succ(y), x, y);
    SuccAbove(y);
  }

  lemma SuccAbove(y: bv64)
    ensures Leq(Succ(y), y) ==> Zero(Succ(y))
  {
  }

  lemma SuccIsAbove(y: bv64)
    requires !Zero(Succ(y))
    ensures Leq(y, Succ(y))
  {
  }

  lemma PlusNothing(base: bv64, range: bv64)
    ensures Plus(base, range) == base <==> Zero(range)
  {
  }

  lemma BelowZero(base: bv64, end: bv64)
    requires Zero(end) && Leq(base, end)
    ensures base == end
  {
  }

  /** The end does not carry exactly when the range is empty, or its last byte neither wraps nor is
      the topmost one. */
  lemma EndParts(base: bv64, range: bv64)
    ensures EndsBelowTop(base, range) <==>
      Zero(range) || (Leq(base, Last(base, range)) && !Zero(Plus(base, range)))
  {
    hide Leq, Last, Plus, Succ, Zero;
    EndIsNext(base, range);
    PlusNothing(base, range);
    if Zero(range) {
      Reflexive(base);
    } else if Zero(Plus(base, range)) {
      if Leq(base, Plus(base, range)) { BelowZero(base, Plus(base, range)); }
    } else if Leq(base, Last(base, range)) {
      SuccIsAbove(Last(base, range));
      Transitive(base, Last(base, range), Plus(base, range));
    } else if Leq(base, Plus(base, range)) {
      Discrete(base, Last(base, range));
      Antisymmetric(base, Plus(base, range));
      SameIsEqual(Plus(base, range), base);
    }
  }

  /** A window up to an end that does not carry holds exactly the bytes of the range. */
  lemma WindowIsRange(base: bv64, range: bv64, x: bv64)
    requires EndsBelowTop(base, range)
    ensures Inside(base, Plus(base, range), x) <==> InRange(base, range, x)
  {
    hide *;
    EndParts(base, range);
    RangeParts(base, range, x);
    InsideParts(base, Plus(base, range), x);
    PlusNothing(base, range);
    EndIsNext(base, range);
    if !Zero(range) {
      if Leq(Plus(base, range), x) && Leq(x, Last(base, range)) { BelowSucc(x, Last(base, range)); }
      if !Leq(x, Last(base, range)) { Discrete(x, Last(base, range)); }
    }
  }

  /** A window whose end carries does not even hold the start of the range. */
  lemma CarriedWindow(base: bv64, range: bv64)
    requires !EndsBelowTop(base, range)
    ensures !Inside(base, Plus(base, range), base) && InRange(base, range, base)
  {
    hide *;
    Reflexive(base);
    EndParts(base, range);
    RangeParts(base, range, base);
    InsideParts(base, Plus(base, range), base);
    CarriesBelow(base, range);
    if !Leq(base, Last(base, range)) { Total(base, Last(base, range)); }
  }

  lemma CarriesBelow(base: bv64, range: bv64)
    requires !EndsBelowTop(base, range)
    ensures Leq(Plus(base, range), base)
  {
    Total(base, Plus(base, range));
    hide Leq, Plus;
  }

  lemma HitIsInside(p: Config, x: bv64)
    ensures Hit(p, x) == Inside(Low(p), High(p), x)
  {
    hide Inside, Low, High;
  }

  /** The test decodes its own encoding of an aligned power-of-two range back to the bytes of the
      range if and only if the range ends below the top of the address space. */
  lemma NapotRoundTripTest(base: bv64, range: bv64)
    requires Encodable(base, range)
    ensures (forall x :: Hit(SetNapot(base, range), x) <==> InRange(base, range, x)) <==> EndsBelowTop(base, range)
  {
    hide *;
    NapotDecoded(base, range);
    if !EndsBelowTop(base, range) {
      CarriedWindow(base, range);
      HitIsInside(SetNapot(base, range), base);
    } else {
      forall x
        ensures Hit(SetNapot(base, range), x) <==> InRange(base, range, x)
      {
        HitIsInside(SetNapot(base, range), x);
        WindowIsRange(base, range, x);
      }
    }
  }

  /** What the MMU covers with the entry pair of a range, from the first register's address. */
  predicate RangeCovers(base: bv64, range: bv64, x: bv64) {
    Covers(Tor(Entry0(SetRange(base, range))), Entry1(SetRange(base, range)), x)
  }

  lemma RangeHits(base: bv64, range: bv64, x: bv64)
    requires WholeWords(base) && WholeWords(range)
    ensures Hit(SetRange(base, range), x) == Inside(base, Plus(base, range), x)
    ensures RangeCovers(base, range, x) == Inside(base, Plus(base, range), x)
  {
    RangeDecoded(base, range);
    SetRangeParts(base, range);
    TorHit(SetRange(base, range), x);
    HitIsInside(SetRange(base, range), x);
    hide SetRange, Inside, Plus, Covers, Tor, Low, High, Hit, WholeWords;
  }

  /** A range of whole words survives the top-of-range encoding, byte for byte, in the MMU and in
      the test, if and only if it ends below the top of the address space. */
  lemma RangeRoundTrip(base: bv64, range: bv64)
    requires WholeWords(base) && WholeWords(range)
    ensures (forall x :: RangeCovers(base, range, x) <==> InRange(base, range, x)) <==> EndsBelowTop(base, range)
    ensures (forall x :: Hit(SetRange(base, range), x) <==> InRange(base, range, x)) <==> EndsBelowTop(base, range)
  {
    hide *;
    if !EndsBelowTop(base, range) {
      CarriedWindow(base, range);
      RangeHits(base, range, base);
    } else {
      forall x
        ensures RangeCovers(base, range, x) <==> InRange(base, range, x)
        ensures Hit(SetRange(base, range), x) <==> InRange(base, range, x)
      {
        RangeHits(base, range, x);
        WindowIsRange(base, range, x);
      }
    }
  }

  /** The last sixteen bytes of the address space: the entry pair covers none of them, and the test
      hits none of them with either encoding. */
  lemma RangeAtTopIsLost()
    ensures var base: bv64, range: bv64 := 0xFFFF_FFFF_FFFF_FFF0, 16;
      InRange(base, range, base) && !RangeCovers(base, range, base) && !Hit(SetRange(base, range), base) &&
      Encodable(base, range) && !Hit(SetNapot(base, range), base)
  {
    var base: bv64, range: bv64 := 0xFFFF_FFFF_FFFF_FFF0, 16;
    CarriedWindow(base, range);
    RangeHits(base, range, base);
    NapotDecoded(base, range);
    HitIsInside(SetNapot(base, range), base);
    hide Hit, Inside, RangeCovers, InRange;
  }
}
