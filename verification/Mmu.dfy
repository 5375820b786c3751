/** The simulator's page-table walk, and that its result depends on the page alone: not on the
    address inside it, nor on the kind of access when both kinds succeed. */
module Mmu {
  import opened Wrappers
  import opened Words
  import opened Pmp

  const PTE_V: bv64 := 0x001
  const PTE_R: bv64 := 0x002
  const PTE_W: bv64 := 0x004
  const PTE_X: bv64 := 0x008
  const PTE_U: bv64 := 0x010
  const PTE_A: bv64 := 0x040
  const PTE_D: bv64 := 0x080

  /** A paging scheme: page-table levels, index bits per level, bytes per table entry and the
      physical address of the root table. */
  datatype Scheme = Scheme(levels: nat, idxbits: bv7, ptesize: bv64, ptbase: bv64)

  type VmInfo = s: Scheme |
    s.levels == 0 || (s.levels == 2 && s.idxbits == 10) || (3 <= s.levels <= 5 && s.idxbits == 9)
    witness Scheme(0, 0, 0, 0)

  /** Where the simulator keeps the target's memory: the host address of the start of each page
      frame that is memory. Memories are made of whole pages, each contiguous on the host. */
  type Host = bv64 -> Option<bv64>

  /** `addr_to_mem` */
  function HostAddress(host: Host, paddr: bv64): Option<bv64> {
    match host(PageBase(paddr))
    case None => None
    case Some(start) => Some(Sum(start, PageOffset(paddr)))
  }

  /** What translation depends on: the protection entries, the paging registers, the privilege
      mode and the fields of `mstatus` that override it for loads and stores outside debug mode, and
      the memory that holds page tables: which addresses are memory, and the word at each. */
  datatype Machine = Machine(
    pmp: seq<Entry>,
    xlen32: bool,
    prv: bv64,
    mprv: bool,
    mpp: bv64,
    debugging: bool,
    satp: bv64,
    sum: bool,
    mxr: bool,
    host: Host,
    word: bv64 -> bv64)

  datatype Outcome = Translated(addr: bv64) | PageFault | AccessFault | Aborted

  /** The privilege that an access is translated and checked with. */
  function Mode(m: Machine, access: Access): bv64 {
    if access != Fetch && m.mprv && !m.debugging then m.mpp else m.prv
  }

  /** The paging scheme selected by `satp`; the simulator aborts on modes it does not know. */
  function DecodeVmInfo(m: Machine, mode: bv64): Option<VmInfo> {
    if mode == PRV_M then Some(Scheme(0, 0, 0, 0))
    else if mode > PRV_S then None
    else if m.xlen32 then
      if m.satp & 0x8000_0000 == 0 then Some(Scheme(0, 0, 0, 0))
      else Some(Scheme(2, 10, 4, (m.satp & 0x003F_FFFF) << 12))
    else
      var base := (m.satp & 0x0000_0FFF_FFFF_FFFF) << 12;
      var field := m.satp >> 60;
      if field == 0 then Some(Scheme(0, 0, 0, 0))
      else if field == 8 then Some(Scheme(3, 9, 8, base))
      else if field == 9 then Some(Scheme(4, 9, 8, base))
      else if field == 10 then Some(Scheme(5, 9, 8, base))
      else None
  }

  // ---------------------------------------------------------------------------------------
  // Addresses and pages

  function Page(x: bv64): bv64 { x >> 12 }

  function PageBase(x: bv64): bv64 { x & !0xFFF }

  function PageOffset(x: bv64): bv64 { x & 0xFFF }

  function Join(base: bv64, offset: bv64): bv64 { base | offset }

  /** The address bits from position 12 + s upwards; the code shifts once, by PGSHIFT + s. */
  function UpperBits(addr: bv64, s: bv7): bv64
    requires s <= 52
  {
    ShiftRight(Page(addr), s)
  }

  function ShiftRight(x: bv64, s: bv7): bv64
    requires s <= 64
  {
    x >> s
  }

  /** A mask of the n lowest bits. */
  function LowBits(n: bv7): bv64
    requires n <= 63
  {
    (1 << n) - 1
  }

  function Low32(addr: bv64): bv64 { addr & 0xFFFF_FFFF }

  function ZeroExtend(addr: bv64, xlen32: bool): bv64 {
    if xlen32 then Low32(addr) else addr
  }

  // ---------------------------------------------------------------------------------------
  // The walk

  /** `level * vm.idxbits` */
  function PtShift(vm: VmInfo, level: nat): (r: bv7)
    requires 0 < vm.levels && level <= vm.levels
    ensures r <= 45
  {
    match level
    case 0 => 0
    case 1 => vm.idxbits
    case 2 => 2 * vm.idxbits
    case 3 => 27
    case 4 => 36
    case _ => 45
  }

  /** Bits from the top translated bit upwards, within the register width, must all be equal. */
  predicate Canonical(vm: VmInfo, addr: bv64)
    requires 0 < vm.levels
  {
    var top := PtShift(vm, vm.levels) - 1;
    AllEqual(UpperBits(addr, top), LowBits(if vm.idxbits == 10 then 20 - top else 52 - top))
  }

  predicate AllEqual(x: bv64, mask: bv64) { x & mask == 0 || x & mask == mask }

  function TableIndex(vm: VmInfo, addr: bv64, ptshift: bv7): bv64
    requires ptshift <= 52 && 0 < vm.levels
  {
    UpperBits(addr, ptshift) & LowBits(vm.idxbits)
  }

  function EntryAddress(vm: VmInfo, base: bv64, index: bv64): bv64 {
    base + index * vm.ptesize
  }

  function ReadEntry(vm: VmInfo, word: bv64): bv64 {
    if vm.ptesize == 4 then word & 0xFFFF_FFFF else word
  }

  function Ppn(pte: bv64): bv64 { pte >> 10 }

  function NextTable(pte: bv64): bv64 { (pte >> 10) << 12 }

  predicate IsTable(pte: bv64) { pte & (PTE_V | PTE_R | PTE_W | PTE_X) == PTE_V }

  /** The checks on a leaf entry, in the order of the code; any of them is a page fault. */
  predicate LeafDenied(m: Machine, pte: bv64, access: Access, ptshift: bv7)
    requires ptshift <= 63
  {
    var user := pte & PTE_U != 0;
    var sMode := Mode(m, access) == PRV_S;
    var r, w, x := pte & PTE_R != 0, pte & PTE_W != 0, pte & PTE_X != 0;
    var ad := PTE_A | (if access == Store then PTE_D else 0);
    (if user then sMode && (access == Fetch || !m.sum) else !sMode) ||
    (pte & PTE_V == 0 || (!r && w)) ||
    (match access
     case Fetch => !x
     case Load => !r && !(m.mxr && x)
     case Store => !(r && w)) ||
    Ppn(pte) & LowBits(ptshift) != 0 ||
    pte & ad != ad
  }

  /** The page a leaf maps to; a superpage takes its low page bits from the virtual address. */
  function LeafFrame(pte: bv64, addr: bv64, ptshift: bv7): bv64
    requires ptshift <= 63
  {
    (Ppn(pte) | (Page(addr) & LowBits(ptshift))) << 12
  }

  /** The walk from the table at `base` with `level` levels to go. */
  function WalkFrom(m: Machine, vm: VmInfo, addr: bv64, access: Access, level: nat, base: bv64): Outcome
    requires 0 < vm.levels && level <= vm.levels
  {
    if level == 0 then PageFault
    else
      var ptshift := PtShift(vm, level - 1);
      var at := EntryAddress(vm, base, TableIndex(vm, addr, ptshift));
      if HostAddress(m.host, at).None? || !Permitted(m.pmp, 0, at, Load, PRV_S) then AccessFault
      else
        var pte := ReadEntry(vm, m.word(at));
        if IsTable(pte) then WalkFrom(m, vm, addr, access, level - 1, NextTable(pte))
        else if LeafDenied(m, pte, access, ptshift) then PageFault
        else Translated(LeafFrame(pte, addr, ptshift))
  }

  function WalkResult(m: Machine, addr: bv64, access: Access): Outcome {
    match DecodeVmInfo(m, Mode(m, access))
    case None => Aborted
    case Some(vm) =>
      if vm.levels == 0 then Translated(ZeroExtend(addr, m.xlen32))
      else if Canonical(vm, addr) then WalkFrom(m, vm, addr, access, vm.levels, vm.ptbase)
      else PageFault
  }

  method Walk(m: Machine, addr: bv64, access: Access) returns (r: Outcome)
    ensures r == WalkResult(m, addr, access)
  {
    hide EntryAddress, TableIndex, LeafDenied, LeafFrame, ReadEntry, NextTable, IsTable, Canonical, UpperBits,
        Permitted,
      DecodeVmInfo, ZeroExtend, PtShift, HostAddress;
    var decoded := DecodeVmInfo(m, Mode(m, access));
    if decoded == None {
      return Aborted;
    }
    var vm := decoded.value;
    if vm.levels == 0 {
      return Translated(ZeroExtend(addr, m.xlen32));
    }
    var level: nat := if Canonical(vm, addr) then vm.levels else 0;
    var base := vm.ptbase;
    while level > 0
      invariant level <= vm.levels
      invariant WalkResult(m, addr, access) == WalkFrom(m, vm, addr, access, level, base)
    {
      var ptshift := PtShift(vm, level - 1);
      var at := EntryAddress(vm, base, TableIndex(vm, addr, ptshift));
      if HostAddress(m.host, at).None? {
        return AccessFault;
      }
      var legal := PmpOk(m.pmp, at, Load, PRV_S);
      if !legal {
        return AccessFault;
      }
      var pte := ReadEntry(vm, m.word(at));
      if IsTable(pte) {
        base := NextTable(pte);
      } else if LeafDenied(m, pte, access, ptshift) {
        return PageFault;
      } else {
        return Translated(LeafFrame(pte, addr, ptshift));
      }
      level := level - 1;
    }
    return PageFault;
  }

  /** Walk, then the protection of the byte, then the homogeneity of the access. */
  function TranslateResult(m: Machine, addr: bv64, len: bv64, access: Access): Outcome
    requires Aligned(addr, len)
  {
    match WalkResult(m, addr, access)
    case Translated(frame) =>
      var paddr := Join(frame, PageOffset(addr));
      if Permitted(m.pmp, 0, paddr, access, Mode(m, access)) && Homogeneous(m.pmp, paddr, len) then Translated(paddr)
      else AccessFault
    case failure => failure
  }

  // ---------------------------------------------------------------------------------------
  // Translation is a matter of pages

  lemma SameIndex(vm: VmInfo, a: bv64, b: bv64, ptshift: bv7)
    requires Page(a) == Page(b) && ptshift <= 52 && 0 < vm.levels
    ensures TableIndex(vm, a, ptshift) == TableIndex(vm, b, ptshift)
  {
    hide LowBits, Page, UpperBits;
    SameUpperBits(a, b, ptshift);
  }

  lemma SameUpperBits(a: bv64, b: bv64, s: bv7)
    requires Page(a) == Page(b) && s <= 52
    ensures UpperBits(a, s) == UpperBits(b, s)
  {
    hide Page, ShiftRight;
  }

  lemma SameFrame(pte: bv64, a: bv64, b: bv64, ptshift: bv7)
    requires Page(a) == Page(b) && ptshift <= 63
    ensures LeafFrame(pte, a, ptshift) == LeafFrame(pte, b, ptshift)
  {
    hide LowBits, Page, Ppn;
  }

  lemma WalkEnds(m: Machine, vm: VmInfo, addr: bv64, access: Access, base: bv64)
    requires 0 < vm.levels
    ensures WalkFrom(m, vm, addr, access, 0, base) == PageFault
  {
  }

  lemma WalkUnfolds(m: Machine, vm: VmInfo, addr: bv64, access: Access, level: nat, base: bv64)
    requires 0 < vm.levels && 0 < level <= vm.levels
    ensures var ptshift := PtShift(vm, level - 1);
      var at := EntryAddress(vm, base, TableIndex(vm, addr, ptshift));
      WalkFrom(m, vm, addr, access, level, base) ==
        if HostAddress(m.host, at).None? || !Permitted(m.pmp, 0, at, Load, PRV_S) then AccessFault
        else
          var pte := ReadEntry(vm, m.word(at));
          if IsTable(pte) then WalkFrom(m, vm, addr, access, level - 1, NextTable(pte))
          else if LeafDenied(m, pte, access, ptshift) then PageFault
          else Translated(LeafFrame(pte, addr, ptshift))
  {
    hide UpperBits, EntryAddress, LeafDenied, ReadEntry, NextTable, IsTable, Permitted, PtShift, TableIndex, LeafFrame,
        HostAddress;
  }

  lemma {:induction false} WalkFromSamePage(m: Machine, vm: VmInfo, a: bv64, b: bv64, access: Access, level: nat,
      base: bv64)
    requires 0 < vm.levels && level <= vm.levels && Page(a) == Page(b)
    ensures WalkFrom(m, vm, a, access, level, base) == WalkFrom(m, vm, b, access, level, base)
    decreases level
  {
    hide *;
    if level == 0 {
      WalkEnds(m, vm, a, access, base);
      WalkEnds(m, vm, b, access, base);
    } else {
      WalkUnfolds(m, vm, a, access, level, base);
      WalkUnfolds(m, vm, b, access, level, base);
      var ptshift := PtShift(vm, level - 1);
      SameIndex(vm, a, b, ptshift);
      var at := EntryAddress(vm, base, TableIndex(vm, a, ptshift));
      if HostAddress(m.host, at).Some? {
        var pte := ReadEntry(vm, m.word(at));
        SameFrame(pte, a, b, ptshift);
        WalkFromSamePage(m, vm, a, b, access, level - 1, NextTable(pte));
      }
    }
  }

  /** Where two kinds of access both succeed they reach the same page. */
  lemma {:induction false} WalkFromAnyAccess(m: Machine, vm: VmInfo, a: bv64, s: Access, t: Access, level: nat,
      base: bv64)
    requires 0 < vm.levels && level <= vm.levels
    requires WalkFrom(m, vm, a, s, level, base).Translated? && WalkFrom(m, vm, a, t, level, base).Translated?
    ensures WalkFrom(m, vm, a, s, level, base) == WalkFrom(m, vm, a, t, level, base)
    decreases level
  {
    hide *;
    if level == 0 {
      WalkEnds(m, vm, a, s, base);
    } else {
      WalkUnfolds(m, vm, a, s, level, base);
      WalkUnfolds(m, vm, a, t, level, base);
      var at := EntryAddress(vm, base, TableIndex(vm, a, PtShift(vm, level - 1)));
      if HostAddress(m.host, at).Some? {
        var pte := ReadEntry(vm, m.word(at));
        if IsTable(pte) {
          WalkFromAnyAccess(m, vm, a, s, t, level - 1, NextTable(pte));
        }
      }
    }
  }

  predicate PageAligned(frame: bv64) { PageOffset(frame) == 0 }

  lemma LeafFrameAligned(pte: bv64, addr: bv64, ptshift: bv7)
    requires ptshift <= 63
    ensures PageAligned(LeafFrame(pte, addr, ptshift))
  {
  }

  lemma {:induction false} WalkFromAligned(m: Machine, vm: VmInfo, a: bv64, access: Access, level: nat, base: bv64)
    requires 0 < vm.levels && level <= vm.levels
    requires WalkFrom(m, vm, a, access, level, base).Translated?
    ensures PageAligned(WalkFrom(m, vm, a, access, level, base).addr)
    decreases level
  {
    hide UpperBits, EntryAddress, LeafDenied, ReadEntry, NextTable, IsTable, Permitted, PtShift, TableIndex,
        LeafFrame, PageAligned;
    if level > 0 {
      var ptshift := PtShift(vm, level - 1);
      var at := EntryAddress(vm, base, TableIndex(vm, a, ptshift));
      if HostAddress(m.host, at).Some? {
        var pte := ReadEntry(vm, m.word(at));
        LeafFrameAligned(pte, a, ptshift);
        if IsTable(pte) {
          WalkFromAligned(m, vm, a, access, level - 1, NextTable(pte));
        }
      }
    }
  }

  lemma SameCanonical(vm: VmInfo, a: bv64, b: bv64)
    requires 0 < vm.levels && Page(a) == Page(b)
    ensures Canonical(vm, a) == Canonical(vm, b)
  {
    hide LowBits, Page, AllEqual, UpperBits;
    SameUpperBits(a, b, PtShift(vm, vm.levels) - 1);
  }

  /** The page frame an address walks to. */
  function Frame(m: Machine, addr: bv64, access: Access): bv64
    requires WalkResult(m, addr, access).Translated?
  {
    PageBase(WalkResult(m, addr, access).addr)
  }

  lemma BareOffset(a: bv64)
    ensures PageOffset(Low32(a)) == PageOffset(a)
  {
  }

  lemma OffsetAbsorbed(w: bv64)
    ensures Join(w, PageOffset(w)) == w
  {
  }

  lemma BareForm(a: bv64, xlen32: bool)
    ensures Join(ZeroExtend(a, xlen32), PageOffset(a)) == Sum(PageBase(ZeroExtend(a, xlen32)), PageOffset(a))
  {
    hide Join, Low32, PageBase, PageOffset;
    BareOffset(a);
    OffsetAbsorbed(ZeroExtend(a, xlen32));
    SplitAddress(ZeroExtend(a, xlen32));
  }

  lemma SamePageBase(a: bv64, b: bv64)
    requires Page(a) == Page(b)
    ensures PageBase(a) == PageBase(b)
  {
  }

  lemma LowBase(a: bv64)
    ensures PageBase(Low32(a)) == Low32(PageBase(a))
  {
  }

  lemma BareSamePage(a: bv64, b: bv64, xlen32: bool)
    requires Page(a) == Page(b)
    ensures PageBase(ZeroExtend(a, xlen32)) == PageBase(ZeroExtend(b, xlen32))
  {
    hide Page, PageBase, Low32;
    SamePageBase(a, b);
    LowBase(a);
    LowBase(b);
  }

  lemma AlignedIsBase(frame: bv64)
    requires PageAligned(frame)
    ensures PageBase(frame) == frame
  {
  }

  /** The physical address is the frame plus the page offset. */
  lemma FrameForm(m: Machine, a: bv64, access: Access)
    requires WalkResult(m, a, access).Translated?
    ensures Join(WalkResult(m, a, access).addr, PageOffset(a)) == Sum(Frame(m, a, access), PageOffset(a))
  {
    hide WalkFrom, Canonical, DecodeVmInfo, ZeroExtend, Join, PageOffset, PageBase, PageAligned;
    var vm := DecodeVmInfo(m, Mode(m, access)).value;
    if vm.levels == 0 {
      BareForm(a, m.xlen32);
    } else {
      WalkFromAligned(m, vm, a, access, vm.levels, vm.ptbase);
      AlignedIsBase(WalkResult(m, a, access).addr);
      JoinIsSum(WalkResult(m, a, access).addr, a);
    }
  }

  lemma FrameOfPage(m: Machine, a: bv64, b: bv64, access: Access)
    requires WalkResult(m, a, access).Translated? && Page(a) == Page(b)
    ensures WalkResult(m, b, access).Translated? && Frame(m, b, access) == Frame(m, a, access)
  {
    hide WalkFrom, Canonical, DecodeVmInfo, ZeroExtend, PageBase, Page;
    var vm := DecodeVmInfo(m, Mode(m, access)).value;
    if vm.levels == 0 {
      BareSamePage(a, b, m.xlen32);
    } else {
      SameCanonical(vm, a, b);
      WalkFromSamePage(m, vm, a, b, access, vm.levels, vm.ptbase);
    }
  }

  /** Two kinds of access are translated alike; MPRV can make that false of a fetch and a load. */
  predicate SameScheme(m: Machine, s: Access, t: Access) {
    DecodeVmInfo(m, Mode(m, s)) == DecodeVmInfo(m, Mode(m, t))
  }

  lemma FrameOfAnyAccess(m: Machine, a: bv64, s: Access, t: Access)
    requires WalkResult(m, a, s).Translated? && WalkResult(m, a, t).Translated? && SameScheme(m, s, t)
    ensures Frame(m, a, s) == Frame(m, a, t)
  {
    hide WalkFrom, Canonical, DecodeVmInfo, Mode, ZeroExtend, PageBase;
    var vm := DecodeVmInfo(m, Mode(m, s)).value;
    if vm.levels != 0 {
      WalkFromAnyAccess(m, vm, a, s, t, vm.levels, vm.ptbase);
    }
  }

  // Offsets within a page

  function Sum(x: bv64, y: bv64): bv64 { x + y }

  lemma SumIs(x: bv64, y: bv64)
    ensures Sum(x, y) == x + y
  {
  }

  lemma RawSplit(a: bv64)
    ensures a == PageBase(a) + PageOffset(a)
  {
  }

  lemma SplitAddress(a: bv64)
    ensures a == Sum(PageBase(a), PageOffset(a))
  {
    hide *;
    RawSplit(a);
    SumIs(PageBase(a), PageOffset(a));
  }

  predicate IsSum(z: bv64, x: bv64, y: bv64) { z == x + y }

  lemma JoinAdds(frame: bv64, a: bv64)
    requires PageAligned(frame)
    ensures IsSum(Join(frame, PageOffset(a)), frame, PageOffset(a))
  {
  }

  lemma SumIsIt(z: bv64, x: bv64, y: bv64)
    requires IsSum(z, x, y)
    ensures z == Sum(x, y)
  {
  }

  lemma JoinIsSum(frame: bv64, a: bv64)
    requires PageAligned(frame)
    ensures Join(frame, PageOffset(a)) == Sum(frame, PageOffset(a))
  {
    hide *;
    JoinAdds(frame, a);
    SumIsIt(Join(frame, PageOffset(a)), frame, PageOffset(a));
  }

  lemma FrameAligned(x: bv64)
    ensures PageAligned(PageBase(x))
  {
  }
}
