/** The direct-mapped TLB in front of the translation slow path. */
module Tlb {
  import opened Wrappers
  import opened Words
  import opened Pmp
  import opened Mmu

  const TLB_ENTRIES := 256
  const TLB_CHECK_TRIGGERS: bv64 := 0x8000_0000_0000_0000
  const NO_TAG: bv64 := 0xFFFF_FFFF_FFFF_FFFF
  const PGSIZE: bv64 := 4096

  function Offset(vaddr: bv64, paddr: bv64): bv64 { paddr - vaddr }

  /** A hit: the address plus the cached distance to its physical page. */
  function Hit(addr: bv64, offset: bv64): bv64 { addr + offset }

  lemma HitIs(addr: bv64, offset: bv64)
    ensures Hit(addr, offset) == addr + offset
  {
  }

  lemma RawDistance(addr: bv64, offset: bv64)
    ensures Offset(addr, addr + offset) == offset
  {
  }

  lemma OffsetOfHit(addr: bv64, offset: bv64)
    ensures Offset(addr, Hit(addr, offset)) == offset
  {
    hide *;
    HitIs(addr, offset);
    RawDistance(addr, offset);
  }

  lemma RawOffset(base: bv64, off: bv64, frame: bv64)
    ensures Offset(base + off, frame + off) == frame - base
  {
  }

  lemma RawHit(base: bv64, off: bv64, frame: bv64)
    ensures Hit(base + off, frame - base) == frame + off
  {
  }

  lemma HitSum(base: bv64, offA: bv64, offB: bv64, frame: bv64)
    ensures Hit(Sum(base, offB), Offset(Sum(base, offA), Sum(frame, offA))) == Sum(frame, offB)
  {
    hide *;
    RawOffset(base, offA, frame);
    RawHit(base, offB, frame);
    SumIs(base, offA);
    SumIs(base, offB);
    SumIs(frame, offA);
    SumIs(frame, offB);
  }

  /** Two addresses of one page are the same distance from their frame. */
  lemma HitInPage(frame: bv64, a: bv64, b: bv64)
    requires Page(a) == Page(b)
    ensures Hit(b, Offset(a, Sum(frame, PageOffset(a)))) == Sum(frame, PageOffset(b))
  {
    hide *;
    SamePageBase(a, b);
    SplitAddress(a);
    SplitAddress(b);
    HitSum(PageBase(a), PageOffset(a), PageOffset(b), frame);
  }

  /** A cached entry: the distances from an address to its host and to its physical address. */
  datatype TlbEntry = TlbEntry(host: bv64, target: bv64)

  function EntryFor(vaddr: bv64, haddr: bv64, paddr: bv64): TlbEntry {
    TlbEntry(Offset(vaddr, haddr), Offset(vaddr, paddr))
  }

  /** The entry takes `a` to the place the slow path finds: physical address and host address. */
  predicate Leads(m: Machine, a: bv64, len: bv64, access: Access, d: TlbEntry)
    requires Aligned(a, len)
  {
    && TranslateResult(m, a, len, access) == Translated(Hit(a, d.target))
    && HostAddress(m.host, Hit(a, d.target)) == Some(Hit(a, d.host))
  }

  /** Every aligned access of this kind in page `vpn` succeeds and lands where the entry says. */
  ghost predicate Serves(m: Machine, vpn: bv64, access: Access, d: TlbEntry) {
    forall a, len | Page(a) == vpn && Aligned(a, len) && Leq(len, PGSIZE) :: Leads(m, a, len, access, d)
  }

  // ---------------------------------------------------------------------------------------
  // One translated access speaks for its page

  function InFrame(frame: bv64, a: bv64): bv64 { Join(frame, PageOffset(a)) }

  lemma FrameBlock(frame: bv64, a: bv64)
    requires PageAligned(frame)
    ensures BlockOf(InFrame(frame, a), PGSIZE) == frame
  {
  }

  lemma FrameStart(frame: bv64)
    requires PageAligned(frame)
    ensures Aligned(frame, PGSIZE)
  {
  }

  lemma FrameOfAddress(frame: bv64, a: bv64)
    requires PageAligned(frame)
    ensures PageBase(InFrame(frame, a)) == frame
  {
  }

  lemma AlignedInFrame(frame: bv64, a: bv64, len: bv64)
    requires PageAligned(frame) && Aligned(a, len) && Leq(len, PGSIZE)
    ensures Aligned(InFrame(frame, a), len)
  {
  }

  /** A successful walk puts the address into its frame. */
  lemma WalkInFrame(m: Machine, a: bv64, access: Access)
    requires WalkResult(m, a, access).Translated?
    ensures PageAligned(Frame(m, a, access))
    ensures Join(WalkResult(m, a, access).addr, PageOffset(a)) == InFrame(Frame(m, a, access), a)
  {
    FrameForm(m, a, access);
    FrameAligned(WalkResult(m, a, access).addr);
    JoinIsSum(Frame(m, a, access), a);
    hide WalkResult, Join, PageOffset, PageBase, PageAligned, Sum;
  }

  /** Within a homogeneous frame every access has the verdict of the first. */
  lemma FrameUniform(m: Machine, frame: bv64, a: bv64, b: bv64, len: bv64, access: Access)
    requires PageAligned(frame) && Homogeneous(m.pmp, frame, PGSIZE)
    requires Permitted(m.pmp, 0, InFrame(frame, a), access, Mode(m, access))
    requires Aligned(b, len) && Leq(len, PGSIZE)
    ensures Permitted(m.pmp, 0, InFrame(frame, b), access, Mode(m, access))
    ensures Homogeneous(m.pmp, InFrame(frame, b), len)
  {
    hide *;
    FrameStart(frame);
    FrameBlock(frame, a);
    FrameBlock(frame, b);
    AlignedFacts(frame, PGSIZE);
    AlignedInFrame(frame, b, len);
    UniformFrom(m.pmp, 0, frame, PGSIZE, InFrame(frame, a), access, Mode(m, access));
    UniformFrom(m.pmp, 0, frame, PGSIZE, InFrame(frame, b), access, Mode(m, access));
    InheritsInBlock(m.pmp, frame, PGSIZE, InFrame(frame, b), len);
  }

  /** A translated access to a homogeneous page of memory makes its entry good for the page. */
  lemma FillServes(m: Machine, vaddr: bv64, len: bv64, access: Access, paddr: bv64, haddr: bv64)
    requires Aligned(vaddr, len) && TranslateResult(m, vaddr, len, access) == Translated(paddr)
    requires HostAddress(m.host, paddr) == Some(haddr) && Homogeneous(m.pmp, PageBase(paddr), PGSIZE)
    ensures Serves(m, Page(vaddr), access, EntryFor(vaddr, haddr, paddr))
  {
    hide TranslateResult, HostAddress, PageBase, Page, Homogeneous, Aligned, Leq, Hit, EntryFor, Leads;
    forall a, n | Page(a) == Page(vaddr) && Aligned(a, n) && Leq(n, PGSIZE)
      ensures Leads(m, a, n, access, EntryFor(vaddr, haddr, paddr))
    {
      ServesOne(m, vaddr, len, access, paddr, a, n);
      HostServesOne(m, vaddr, len, access, paddr, haddr, a);
      LeadsByParts(m, vaddr, haddr, paddr, a, n, access);
    }
  }

  lemma LeadsByParts(m: Machine, vaddr: bv64, haddr: bv64, paddr: bv64, a: bv64, n: bv64, access: Access)
    requires Aligned(a, n) && TranslateResult(m, a, n, access) == Translated(Hit(a, Offset(vaddr, paddr)))
    requires HostAddress(m.host, Hit(a, Offset(vaddr, paddr))) == Some(Hit(a, Offset(vaddr, haddr)))
    ensures Leads(m, a, n, access, EntryFor(vaddr, haddr, paddr))
  {
    hide TranslateResult, HostAddress, Aligned, Hit, Offset;
  }

  lemma ServesOne(m: Machine, vaddr: bv64, len: bv64, access: Access, paddr: bv64, a: bv64, n: bv64)
    requires Aligned(vaddr, len) && TranslateResult(m, vaddr, len, access) == Translated(paddr)
    requires Homogeneous(m.pmp, PageBase(paddr), PGSIZE)
    requires Page(a) == Page(vaddr) && Aligned(a, n) && Leq(n, PGSIZE)
    ensures TranslateResult(m, a, n, access) == Translated(Hit(a, Offset(vaddr, paddr)))
  {
    hide WalkResult, Frame, Join, PageBase, PageOffset, Page, Permitted, Homogeneous, Aligned, Leq, Offset, Hit,
        PageAligned, InFrame, Sum;
    FrameOfPage(m, vaddr, a, access);
    var frame := Frame(m, vaddr, access);
    WalkInFrame(m, vaddr, access);
    WalkInFrame(m, a, access);
    FrameOfAddress(frame, vaddr);
    FrameUniform(m, frame, vaddr, a, n, access);
    InFrameIsSum(frame, vaddr);
    InFrameIsSum(frame, a);
    HitInPage(frame, vaddr, a);
  }

  lemma OffsetInFrame(frame: bv64, a: bv64)
    requires PageAligned(frame)
    ensures PageOffset(InFrame(frame, a)) == PageOffset(a)
  {
  }

  lemma HostInFrame(host: Host, frame: bv64, a: bv64)
    requires PageAligned(frame)
    ensures HostAddress(host, InFrame(frame, a)) ==
      match host(frame) case None => None case Some(start) => Some(Sum(start, PageOffset(a)))
  {
    FrameOfAddress(frame, a);
    OffsetInFrame(frame, a);
    hide PageBase, PageOffset, InFrame, PageAligned, Sum;
  }

  /** The host addresses of a page are as far apart as its virtual addresses. */
  lemma HostServesOne(m: Machine, vaddr: bv64, len: bv64, access: Access, paddr: bv64, haddr: bv64,
      a: bv64)
    requires Aligned(vaddr, len) && TranslateResult(m, vaddr, len, access) == Translated(paddr)
    requires HostAddress(m.host, paddr) == Some(haddr) && Page(a) == Page(vaddr)
    ensures HostAddress(m.host, Hit(a, Offset(vaddr, paddr))) == Some(Hit(a, Offset(vaddr, haddr)))
  {
    hide WalkResult, Frame, Join, PageBase, PageOffset, Page, Permitted, Homogeneous, Aligned, Leq, Offset, Hit,
        PageAligned, InFrame, Sum, HostAddress;
    var frame := Frame(m, vaddr, access);
    WalkInFrame(m, vaddr, access);
    InFrameIsSum(frame, vaddr);
    InFrameIsSum(frame, a);
    HitInPage(frame, vaddr, a);
    HostInFrame(m.host, frame, vaddr);
    HostInFrame(m.host, frame, a);
    HitInPage(m.host(frame).value, vaddr, a);
  }

  lemma InFrameIsSum(frame: bv64, a: bv64)
    requires PageAligned(frame)
    ensures InFrame(frame, a) == Sum(frame, PageOffset(a))
  {
    JoinIsSum(frame, a);
    hide Join, PageOffset, Sum, PageAligned;
  }

  lemma ByteAligned(a: bv64)
    ensures Aligned(a, 1) && Leq(1, PGSIZE)
  {
  }

  // A whole page at once

  function PageStart(vpn: bv64): bv64 { vpn << 12 }

  /** `vpn` is the number of a page. */
  predicate IsPage(vpn: bv64) { Page(PageStart(vpn)) == vpn }

  lemma PageIsPage(a: bv64)
    ensures IsPage(Page(a))
  {
  }

  lemma StartAligned(vpn: bv64)
    ensures Aligned(PageStart(vpn), PGSIZE) && Leq(PGSIZE, PGSIZE) && PageOffset(PageStart(vpn)) == 0
  {
  }

  lemma StartInFrame(frame: bv64, a: bv64)
    requires PageOffset(a) == 0
    ensures InFrame(frame, a) == frame
  {
  }

  /** The whole page succeeds at its first byte only if protection does not cut its frame. */
  lemma WholeFrame(m: Machine, vpn: bv64, access: Access, p: bv64)
    requires Aligned(PageStart(vpn), PGSIZE)
    requires TranslateResult(m, PageStart(vpn), PGSIZE, access) == Translated(p)
    ensures p == Frame(m, PageStart(vpn), access) && PageBase(p) == p && Homogeneous(m.pmp, p, PGSIZE)
  {
    hide WalkResult, Frame, Join, PageBase, PageOffset, Permitted, Homogeneous, Aligned, PageAligned, InFrame,
        PageStart;
    var a := PageStart(vpn);
    var frame := Frame(m, a, access);
    WalkInFrame(m, a, access);
    StartAligned(vpn);
    StartInFrame(frame, a);
    FrameOfAddress(frame, a);
  }

  /** And then every access to the page is to a frame that is not cut. */
  lemma FrameOfWhole(m: Machine, a: bv64, len: bv64, access: Access, p: bv64)
    requires Aligned(a, len) && TranslateResult(m, a, len, access) == Translated(p)
    requires Aligned(PageStart(Page(a)), PGSIZE)
    requires TranslateResult(m, PageStart(Page(a)), PGSIZE, access).Translated?
    ensures Homogeneous(m.pmp, PageBase(p), PGSIZE)
  {
    hide WalkResult, Frame, Join, PageBase, PageOffset, Permitted, Homogeneous, Aligned, PageAligned, InFrame,
        PageStart, Page;
    PageIsPage(a);
    PageOfStart(Page(a));
    WholeFrame(m, Page(a), access, TranslateResult(m, PageStart(Page(a)), PGSIZE, access).addr);
    FrameOfPage(m, a, PageStart(Page(a)), access);
    WalkInFrame(m, a, access);
    FrameOfAddress(Frame(m, a, access), a);
  }

  lemma PageOfStart(vpn: bv64)
    requires IsPage(vpn)
    ensures Page(PageStart(vpn)) == vpn
  {
    hide Page, PageStart;
  }

  /** A page served by some entry is served by the entry of any translated access, if the two kinds
      of access are translated by the same scheme. */
  lemma OneOffset(m: Machine, vaddr: bv64, len: bv64, access: Access, paddr: bv64, haddr: bv64,
      other: Access, d: TlbEntry)
    requires Aligned(vaddr, len) && TranslateResult(m, vaddr, len, access) == Translated(paddr)
    requires HostAddress(m.host, paddr) == Some(haddr)
    requires Serves(m, Page(vaddr), other, d) && SameScheme(m, access, other)
    ensures d == EntryFor(vaddr, haddr, paddr)
  {
    hide WalkResult, Frame, Join, PageBase, PageOffset, Page, Permitted, Homogeneous, Aligned, Leq, Offset, Hit,
        PageAligned, InFrame, HostAddress, SameScheme;
    ByteAligned(vaddr);
    assert Leads(m, vaddr, 1, other, d);
    FrameOfAnyAccess(m, vaddr, access, other);
    WalkInFrame(m, vaddr, access);
    WalkInFrame(m, vaddr, other);
    OffsetOfHit(vaddr, d.target);
    OffsetOfHit(vaddr, d.host);
  }

  /** The slow path: walk, then ask protection about the byte and the whole access. */
  method Translate(m: Machine, addr: bv64, len: bv64, access: Access) returns (r: Outcome)
    requires Aligned(addr, len) && Leq(len, PGSIZE)
    ensures r == TranslateResult(m, addr, len, access)
  {
    hide WalkResult, Join, PageOffset, Homogeneous, Permitted, Aligned, Leq, InFrame, PageAligned, Frame;
    var walked := Walk(m, addr, access);
    if !walked.Translated? {
      return walked;
    }
    var paddr := Join(walked.addr, PageOffset(addr));
    WalkInFrame(m, addr, access);
    AlignedInFrame(Frame(m, addr, access), addr, len);
    var ok := PmpOk(m.pmp, paddr, access, Mode(m, access));
    if !ok {
      return AccessFault;
    }
    var whole := PmpHomogeneous(m.pmp, paddr, len);
    if !whole {
      return AccessFault;
    }
    return Translated(paddr);
  }

  // ---------------------------------------------------------------------------------------
  // One slot

  /** A slot holds one tag for each kind of access and one entry that they share. */
  datatype Slot = Slot(insn: bv64, load: bv64, store: bv64, data: TlbEntry) {
    function Tag(access: Access): bv64 {
      match access
      case Fetch => insn
      case Load => load
      case Store => store
    }
  }

  predicate Live(tag: bv64) { tag != NO_TAG }

  /** The page a tag names: the trigger bit is not part of it. */
  function TagPage(tag: bv64): bv64 { tag & !TLB_CHECK_TRIGGERS }

  function WithTriggers(vpn: bv64, check: bool): bv64 {
    if check then Checked(vpn) else vpn
  }

  /** The invariant of a slot: live tags name one page, and the entry serves each of them. */
  ghost predicate SlotOk(m: Machine, s: Slot) {
    && (forall t :: Live(s.Tag(t)) ==> IsPage(TagPage(s.Tag(t))) && Serves(m, TagPage(s.Tag(t)), t, s.data))
    && (forall t, u :: Live(s.Tag(t)) && Live(s.Tag(u)) ==> TagPage(s.Tag(t)) == TagPage(s.Tag(u)))
  }

  const EMPTY_SLOT := Slot(NO_TAG, NO_TAG, NO_TAG, TlbEntry(0, 0))

  /** A tag of another page is dropped when the slot is taken over. */
  function Kept(tag: bv64, vpn: bv64): bv64 {
    if TagPage(tag) == vpn then tag else NO_TAG
  }

  /** The slot after a refill for `vpn`; `whole` says that the page is not cut by protection. */
  function Refilled(s: Slot, vpn: bv64, access: Access, check: bool, whole: bool, d: TlbEntry): Slot {
    var tag := WithTriggers(vpn, check);
    Slot(if whole && access == Fetch then tag else Kept(s.insn, vpn),
         if whole && access == Load then tag else Kept(s.load, vpn),
         if whole && access == Store then tag else Kept(s.store, vpn),
         d)
  }

  /** The first part of a refill: tags of other pages go. */
  function Dropped(s: Slot, vpn: bv64): Slot { Slot(Kept(s.insn, vpn), Kept(s.load, vpn), Kept(s.store, vpn), s.data) }

  /** The second: the tag of this kind of access is set, if the page is whole. */
  function Tagged(s: Slot, tag: bv64, access: Access, whole: bool): Slot {
    if !whole then s
    else
      match access
      case Fetch => s.(insn := tag)
      case Load => s.(load := tag)
      case Store => s.(store := tag)
  }

  lemma RefilledInParts(s: Slot, vpn: bv64, access: Access, check: bool, whole: bool, d: TlbEntry)
    ensures Refilled(s, vpn, access, check, whole, d)
         == Tagged(Dropped(s, vpn), WithTriggers(vpn, check), access, whole).(data := d)
  {
    hide Kept, WithTriggers;
    match access
    case Fetch => if whole { }
    case Load => if whole { }
    case Store => if whole { }
  }

  lemma PlainTag(a: bv64)
    ensures Live(Page(a)) && TagPage(Page(a)) == Page(a)
  {
  }

  function Checked(vpn: bv64): bv64 { vpn | TLB_CHECK_TRIGGERS }

  lemma CheckedTagLive(a: bv64)
    ensures Live(Checked(Page(a)))
  {
  }

  lemma CheckedTagPage(a: bv64)
    ensures TagPage(Checked(Page(a))) == Page(a)
  {
  }

  lemma NewTag(a: bv64, check: bool)
    ensures Live(WithTriggers(Page(a), check)) && TagPage(WithTriggers(Page(a), check)) == Page(a)
  {
    hide Live, TagPage, Checked, Page;
    PlainTag(a);
    CheckedTagLive(a);
    CheckedTagPage(a);
  }

  lemma KeptTag(tag: bv64, vpn: bv64)
    requires Live(Kept(tag, vpn))
    ensures Kept(tag, vpn) == tag && TagPage(tag) == vpn
  {
    hide TagPage;
  }

  /** The tags that survive a refill go with the entry it installs. */
  predicate KeptAgree(s: Slot, vpn: bv64, access: Access, whole: bool, d: TlbEntry) {
    forall t: Access :: Live(Kept(s.Tag(t), vpn)) && !(whole && t == access) ==> s.data == d
  }

  /** An address is served by one entry only. */
  lemma OneEntry(m: Machine, vaddr: bv64, t: Access, d: TlbEntry, d': TlbEntry)
    requires Serves(m, Page(vaddr), t, d) && Serves(m, Page(vaddr), t, d')
    ensures d == d'
  {
    hide TranslateResult, HostAddress, Page, Aligned, Leq, Hit;
    ByteAligned(vaddr);
    assert Leads(m, vaddr, 1, t, d) && Leads(m, vaddr, 1, t, d');
    OffsetOfHit(vaddr, d.target);
    OffsetOfHit(vaddr, d'.target);
    OffsetOfHit(vaddr, d.host);
    OffsetOfHit(vaddr, d'.host);
  }

  lemma RefilledTag(m: Machine, s: Slot, vaddr: bv64, len: bv64, access: Access, paddr: bv64, haddr: bv64,
      check: bool, whole: bool, t: Access)
    requires SlotOk(m, s)
    requires Aligned(vaddr, len) && TranslateResult(m, vaddr, len, access) == Translated(paddr)
    requires HostAddress(m.host, paddr) == Some(haddr)
    requires whole ==> Homogeneous(m.pmp, PageBase(paddr), PGSIZE)
    requires KeptAgree(s, Page(vaddr), access, whole, EntryFor(vaddr, haddr, paddr))
    requires Live(Refilled(s, Page(vaddr), access, check, whole, EntryFor(vaddr, haddr, paddr)).Tag(t))
    ensures TagPage(Refilled(s, Page(vaddr), access, check, whole, EntryFor(vaddr, haddr, paddr)).Tag(t))
         == Page(vaddr)
    ensures Serves(m, Page(vaddr), t, EntryFor(vaddr, haddr, paddr))
  {
    hide TranslateResult, HostAddress, Page, PageBase, Homogeneous, Aligned, EntryFor, Live, TagPage, WithTriggers,
        Serves, Kept;
    if whole && t == access {
      NewTag(vaddr, check);
      FillServes(m, vaddr, len, access, paddr, haddr);
    } else {
      KeptTag(s.Tag(t), Page(vaddr));
    }
  }

  /** A refill after a successful translation keeps the invariant exactly when the tags that survive
      go with the new entry. */
  lemma RefillKeeps(m: Machine, s: Slot, vaddr: bv64, len: bv64, access: Access, paddr: bv64, haddr: bv64,
      check: bool, whole: bool)
    requires SlotOk(m, s)
    requires Aligned(vaddr, len) && TranslateResult(m, vaddr, len, access) == Translated(paddr)
    requires HostAddress(m.host, paddr) == Some(haddr)
    requires whole ==> Homogeneous(m.pmp, PageBase(paddr), PGSIZE)
    ensures SlotOk(m, Refilled(s, Page(vaddr), access, check, whole, EntryFor(vaddr, haddr, paddr))) <==>
      KeptAgree(s, Page(vaddr), access, whole, EntryFor(vaddr, haddr, paddr))
  {
    hide *;
    var d := EntryFor(vaddr, haddr, paddr);
    var r := Refilled(s, Page(vaddr), access, check, whole, d);
    if KeptAgree(s, Page(vaddr), access, whole, d) {
      forall t | Live(r.Tag(t))
        ensures TagPage(r.Tag(t)) == Page(vaddr) && Serves(m, Page(vaddr), t, d)
      {
        RefilledTag(m, s, vaddr, len, access, paddr, haddr, check, whole, t);
      }
      RefilledData(s, Page(vaddr), access, check, whole, d);
      PageIsPage(vaddr);
      OnePage(m, r, Page(vaddr));
    } else {
      StaleTag(m, s, vaddr, access, check, whole, d);
    }
  }

  lemma KeptInRefill(s: Slot, vpn: bv64, access: Access, check: bool, whole: bool, d: TlbEntry, t: Access)
    requires !(whole && t == access)
    ensures var r := Refilled(s, vpn, access, check, whole, d); r.Tag(t) == Kept(s.Tag(t), vpn) && r.data == d
  {
    hide WithTriggers, Kept;
  }

  lemma StaleTag(m: Machine, s: Slot, vaddr: bv64, access: Access, check: bool, whole: bool, d: TlbEntry)
    requires SlotOk(m, s) && !KeptAgree(s, Page(vaddr), access, whole, d)
    ensures !SlotOk(m, Refilled(s, Page(vaddr), access, check, whole, d))
  {
    hide Page, Live, TagPage, Serves, Kept, Refilled;
    var r := Refilled(s, Page(vaddr), access, check, whole, d);
    var t: Access :| Live(Kept(s.Tag(t), Page(vaddr))) && !(whole && t == access) && s.data != d;
    KeptTag(s.Tag(t), Page(vaddr));
    KeptInRefill(s, Page(vaddr), access, check, whole, d, t);
    if SlotOk(m, r) {
      OneEntry(m, vaddr, t, s.data, d);
    }
  }

  /** Whatever the kind of access, translation goes by one scheme: MPRV does not set loads apart. */
  predicate OneScheme(m: Machine) {
    forall s: Access, t: Access :: SameScheme(m, s, t)
  }

  lemma WithoutMprv(m: Machine)
    requires !m.mprv || m.debugging || m.mpp == m.prv
    ensures OneScheme(m)
  {
    hide DecodeVmInfo;
  }

  /** With one scheme the surviving tags always go with the new entry. */
  lemma OneSchemeAgrees(m: Machine, s: Slot, vaddr: bv64, len: bv64, access: Access, paddr: bv64,
      haddr: bv64, whole: bool)
    requires SlotOk(m, s) && OneScheme(m)
    requires Aligned(vaddr, len) && TranslateResult(m, vaddr, len, access) == Translated(paddr)
    requires HostAddress(m.host, paddr) == Some(haddr)
    ensures KeptAgree(s, Page(vaddr), access, whole, EntryFor(vaddr, haddr, paddr))
  {
    hide TranslateResult, HostAddress, Page, Aligned, EntryFor, Live, TagPage, Serves, Kept, SameScheme;
    forall t: Access | Live(Kept(s.Tag(t), Page(vaddr))) && !(whole && t == access)
      ensures s.data == EntryFor(vaddr, haddr, paddr)
    {
      KeptTag(s.Tag(t), Page(vaddr));
      assert SameScheme(m, access, t);
      OneOffset(m, vaddr, len, access, paddr, haddr, t, s.data);
    }
  }

  lemma RefilledData(s: Slot, vpn: bv64, access: Access, check: bool, whole: bool, d: TlbEntry)
    ensures Refilled(s, vpn, access, check, whole, d).data == d
  {
    hide WithTriggers, Kept;
  }

  lemma OnePage(m: Machine, r: Slot, vpn: bv64)
    requires IsPage(vpn) && forall t :: Live(r.Tag(t)) ==> TagPage(r.Tag(t)) == vpn && Serves(m, vpn, t, r.data)
    ensures SlotOk(m, r)
  {
    hide Live, TagPage, Serves, IsPage;
  }

  /** The lookup of the fast path. */
  predicate TagMatches(tag: bv64, vpn: bv64) {
    tag == vpn || tag == Checked(vpn)
  }

  lemma MatchIsLive(tag: bv64, a: bv64)
    requires TagMatches(tag, Page(a))
    ensures Live(tag) && TagPage(tag) == Page(a)
  {
  }

  /** A hit is indistinguishable from the slow path: the same physical address, and the same host
      address to read or write. */
  lemma HitIsTransparent(m: Machine, s: Slot, a: bv64, len: bv64, access: Access)
    requires SlotOk(m, s) && TagMatches(s.Tag(access), Page(a))
    requires Aligned(a, len) && Leq(len, PGSIZE)
    ensures Reach(m, a, len, access) == Memory(Hit(a, s.data.target), Hit(a, s.data.host))
  {
    MatchIsLive(s.Tag(access), a);
    hide TranslateResult, HostAddress, Page, Aligned, Leq, Hit, Live, TagPage, TagMatches;
    assert Leads(m, a, len, access, s.data);
  }

  /** Where an access ends up: in memory on the host, at a device, or in a fault. */
  datatype Reached = Memory(paddr: bv64, haddr: bv64) | Device(paddr: bv64) | Fault(why: Outcome)

  function Reach(m: Machine, addr: bv64, len: bv64, access: Access): Reached
    requires Aligned(addr, len)
  {
    match TranslateResult(m, addr, len, access)
    case Translated(paddr) =>
      (match HostAddress(m.host, paddr)
       case Some(haddr) => Memory(paddr, haddr)
       case None => Device(paddr))
    case failure => Fault(failure)
  }

  /** The slot after an access: it is refilled on a miss, when the target is memory and, but for
      fetches, no tracer watches it. */
  function Accessed(m: Machine, s: Slot, addr: bv64, len: bv64, access: Access, traced: bool, check: bool): Slot
    requires Aligned(addr, len)
  {
    var r := Reach(m, addr, len, access);
    if TagMatches(s.Tag(access), Page(addr)) || !r.Memory? || (access != Fetch && traced) then s
    else Refilled(s, Page(addr), access, check, Whole(m, r.paddr), EntryFor(addr, r.haddr, r.paddr))
  }

  /** Protection does not cut the page of a physical address. */
  predicate Whole(m: Machine, paddr: bv64) { Homogeneous(m.pmp, PageBase(paddr), PGSIZE) }

  /** The access misses and refills a slot in which another tag survives that goes with another
      entry. */
  predicate Clashes(m: Machine, s: Slot, addr: bv64, len: bv64, access: Access, traced: bool)
    requires Aligned(addr, len)
  {
    var r := Reach(m, addr, len, access);
    && !TagMatches(s.Tag(access), Page(addr)) && r.Memory? && (access == Fetch || !traced)
    && !KeptAgree(s, Page(addr), access, Whole(m, r.paddr), EntryFor(addr, r.haddr, r.paddr))
  }

  /** An access keeps its slot trustworthy exactly when it does not clash. */
  lemma AccessKeeps(m: Machine, s: Slot, addr: bv64, len: bv64, access: Access, traced: bool, check: bool)
    requires SlotOk(m, s) && Aligned(addr, len)
    ensures SlotOk(m, Accessed(m, s, addr, len, access, traced, check)) <==>
      !Clashes(m, s, addr, len, access, traced)
  {
    hide TranslateResult, HostAddress, Page, PageBase, Aligned, EntryFor, TagMatches, SlotOk, KeptAgree, Homogeneous,
        Refilled;
    var r := Reach(m, addr, len, access);
    if r.Memory? {
      RefillKeeps(m, s, addr, len, access, r.paddr, r.haddr, check, Whole(m, r.paddr));
    }
  }

  lemma NoClash(m: Machine, s: Slot, addr: bv64, len: bv64, access: Access, traced: bool)
    requires SlotOk(m, s) && OneScheme(m) && Aligned(addr, len)
    ensures !Clashes(m, s, addr, len, access, traced)
  {
    hide TranslateResult, HostAddress, Page, PageBase, Aligned, EntryFor, TagMatches, SlotOk, OneScheme, KeptAgree,
        Homogeneous;
    var r := Reach(m, addr, len, access);
    if r.Memory? {
      OneSchemeAgrees(m, s, addr, len, access, r.paddr, r.haddr, Whole(m, r.paddr));
    }
  }

  // ---------------------------------------------------------------------------------------
  // A change of the machine without a flush

  /** One look at the slow path: the page that the tag names, as a whole, is still where the entry
      says. */
  predicate StillThere(m: Machine, s: Slot, t: Access) {
    StartAligned(TagPage(s.Tag(t)));
    TranslateResult(m, PageStart(TagPage(s.Tag(t))), PGSIZE, t)
      == Translated(Hit(PageStart(TagPage(s.Tag(t))), s.data.target))
  }

  predicate Survives(m: Machine, s: Slot) {
    forall t: Access :: Live(s.Tag(t)) ==> StillThere(m, s, t)
  }

  /** Where a trustworthy tag leads from the start of its page. */
  lemma ServedFromStart(m: Machine, s: Slot, t: Access)
    requires SlotOk(m, s) && Live(s.Tag(t))
    ensures var a := PageStart(TagPage(s.Tag(t)));
      && Page(a) == TagPage(s.Tag(t)) && Aligned(a, PGSIZE) && Leads(m, a, PGSIZE, t, s.data)
  {
    hide TranslateResult, HostAddress, Page, PageStart, Aligned, Leq, Hit, Live, TagPage, IsPage, Leads;
    StartAligned(TagPage(s.Tag(t)));
    PageOfStart(TagPage(s.Tag(t)));
  }

  lemma LeadsParts(m: Machine, a: bv64, len: bv64, t: Access, d: TlbEntry)
    requires Aligned(a, len) && Leads(m, a, len, t, d)
    ensures TranslateResult(m, a, len, t) == Translated(Hit(a, d.target))
    ensures HostAddress(m.host, Hit(a, d.target)) == Some(Hit(a, d.host))
  {
    hide TranslateResult, HostAddress, Aligned, Hit;
  }

  lemma EntryOfHits(a: bv64, d: TlbEntry)
    ensures EntryFor(a, Hit(a, d.host), Hit(a, d.target)) == d
  {
    hide Offset, Hit;
    OffsetOfHit(a, d.host);
    OffsetOfHit(a, d.target);
  }

  /** One tag: the single look decides about every access to the page. */
  lemma ThereServes(m: Machine, m': Machine, s: Slot, t: Access)
    requires SlotOk(m, s) && Live(s.Tag(t)) && m'.host == m.host && StillThere(m', s, t)
    ensures Serves(m', TagPage(s.Tag(t)), t, s.data)
  {
    hide *;
    var vpn, d := TagPage(s.Tag(t)), s.data;
    var a := PageStart(vpn);
    ServedFromStart(m, s, t);
    LeadsParts(m, a, PGSIZE, t, d);
    ThereParts(m', s, t);
    WholeFrame(m', vpn, t, Hit(a, d.target));
    FillServes(m', a, PGSIZE, t, Hit(a, d.target), Hit(a, d.host));
    EntryOfHits(a, d);
  }

  lemma ThereParts(m: Machine, s: Slot, t: Access)
    ensures var a := PageStart(TagPage(s.Tag(t)));
      Aligned(a, PGSIZE) &&
      (StillThere(m, s, t) <==> TranslateResult(m, a, PGSIZE, t) == Translated(Hit(a, s.data.target)))
  {
    StartAligned(TagPage(s.Tag(t)));
    hide TranslateResult, Aligned, PageStart, TagPage, Hit;
  }

  /** Whatever changes without a flush, be it privilege, `mstatus`, `satp`, page tables or protection,
      the slot stays trustworthy exactly when one look at the slow path for each of its tags still
      finds the page where it was. */
  lemma ChangeKeeps(m: Machine, m': Machine, s: Slot)
    requires SlotOk(m, s) && m'.host == m.host
    ensures SlotOk(m', s) <==> Survives(m', s)
  {
    hide Live, TagPage, Serves, IsPage, StillThere;
    if SlotOk(m', s) {
      forall t: Access | Live(s.Tag(t))
        ensures StillThere(m', s, t)
      {
        ServedFromStart(m', s, t);
        StayedThere(m', s, t);
      }
    }
    if Survives(m', s) {
      forall t: Access | Live(s.Tag(t))
        ensures Serves(m', TagPage(s.Tag(t)), t, s.data)
      {
        ThereServes(m, m', s, t);
      }
    }
  }

  lemma StayedThere(m: Machine, s: Slot, t: Access)
    requires Aligned(PageStart(TagPage(s.Tag(t))), PGSIZE)
    requires Leads(m, PageStart(TagPage(s.Tag(t))), PGSIZE, t, s.data)
    ensures StillThere(m, s, t)
  {
    hide *;
    ThereParts(m, s, t);
    LeadsParts(m, PageStart(TagPage(s.Tag(t))), PGSIZE, t, s.data);
  }

  /** With the same protection entries a look at the first byte is enough. */
  lemma FirstByteDecides(m: Machine, m': Machine, s: Slot, t: Access)
    requires SlotOk(m, s) && Live(s.Tag(t)) && m'.pmp == m.pmp
    ensures var a := PageStart(TagPage(s.Tag(t)));
      StillThere(m', s, t) <==>
        Aligned(a, 1) && TranslateResult(m', a, 1, t) == Translated(Hit(a, s.data.target))
  {
    hide *;
    var a := PageStart(TagPage(s.Tag(t)));
    ServedFromStart(m, s, t);
    LeadsParts(m, a, PGSIZE, t, s.data);
    WholeFrame(m, TagPage(s.Tag(t)), t, Hit(a, s.data.target));
    ThereParts(m', s, t);
    ByteAligned(a);
    ByteOfWhole(m', a, t, Hit(a, s.data.target));
  }

  lemma ByteOfWhole(m: Machine, a: bv64, t: Access, p: bv64)
    requires Aligned(a, PGSIZE) && Aligned(a, 1) && PageBase(p) == p && Homogeneous(m.pmp, p, PGSIZE)
    ensures TranslateResult(m, a, PGSIZE, t) == Translated(p) <==> TranslateResult(m, a, 1, t) == Translated(p)
  {
    BaseAligned(p);
    ByteAligned(p);
    PageIsAtLeastByte();
    hide WalkResult, Join, PageOffset, Permitted, Homogeneous, Aligned, Leq, PageBase, Mode;
    InheritsFromStart(m.pmp, p);
  }

  lemma PageIsAtLeastByte()
    ensures Leq(1, PGSIZE)
  {
  }

  lemma InheritsFromStart(pmp: seq<Entry>, p: bv64)
    requires Aligned(p, PGSIZE) && Aligned(p, 1) && Leq(1, PGSIZE) && Homogeneous(pmp, p, PGSIZE)
    ensures Homogeneous(pmp, p, 1)
  {
    hide *;
    AlignedFacts(p, PGSIZE);
    InheritsInBlock(pmp, p, PGSIZE, p, 1);
  }

  // ---------------------------------------------------------------------------------------
  // Triggers

  /** For which kinds of access some trigger is armed. */
  datatype Checks = Checks(fetch: bool, load: bool, store: bool) {
    predicate On(access: Access) {
      match access
      case Fetch => fetch
      case Load => load
      case Store => store
    }
  }

  predicate IsMarked(tag: bv64) { tag & TLB_CHECK_TRIGGERS != 0 }

  /** Every live tag of a kind with armed triggers is marked. */
  predicate Marked(c: Checks, s: Slot) {
    forall t: Access :: Live(s.Tag(t)) && c.On(t) ==> IsMarked(s.Tag(t))
  }

  /** Whether the access consults the triggers. A load or store does, unless it hits an unmarked tag
      or faults; a fetch does if its tag is marked once the access is done. */
  predicate Asks(m: Machine, s: Slot, addr: bv64, len: bv64, access: Access, check: bool)
    requires Aligned(addr, len)
  {
    if access == Fetch then Accessed(m, s, addr, len, Fetch, false, check).insn == Checked(Page(addr))
    else s.Tag(access) != Page(addr) && !Reach(m, addr, len, access).Fault?
  }

  /** The accesses that the triggers see: loads and stores that do not fault, but fetches only from
      memory, and from pages that protection does not cut. */
  predicate Watched(m: Machine, addr: bv64, len: bv64, access: Access)
    requires Aligned(addr, len)
  {
    var r := Reach(m, addr, len, access);
    if access == Fetch then r.Memory? && Whole(m, r.paddr) else !r.Fault?
  }

  lemma PlainIsUnmarked(a: bv64)
    ensures !IsMarked(Page(a)) && Live(Page(a))
  {
  }

  lemma PlainIsNotChecked(a: bv64)
    ensures Page(a) != Checked(Page(a))
  {
  }

  lemma CheckedIsMarked(vpn: bv64)
    ensures IsMarked(Checked(vpn))
  {
  }

  lemma DeadIsNoTag(a: bv64)
    ensures !Live(NO_TAG) && NO_TAG != Checked(Page(a))
  {
  }

  lemma AsksOnHit(m: Machine, s: Slot, addr: bv64, len: bv64, access: Access, traced: bool, check: bool)
    requires TagMatches(s.Tag(access), Page(addr)) && Aligned(addr, len) && !Reach(m, addr, len, access).Fault?
    ensures Asks(m, s, addr, len, access, check) == (s.Tag(access) == Checked(Page(addr)))
    ensures Accessed(m, s, addr, len, access, traced, check) == s
  {
    PlainIsNotChecked(addr);
    hide Reach, Page, Checked, Aligned;
  }

  lemma AsksOnMiss(m: Machine, s: Slot, addr: bv64, len: bv64, access: Access, traced: bool, check: bool)
    requires !TagMatches(s.Tag(access), Page(addr)) && Aligned(addr, len)
    ensures Asks(m, s, addr, len, access, check) <==>
      if access == Fetch then Accessed(m, s, addr, len, access, traced, check).insn == Checked(Page(addr))
      else !Reach(m, addr, len, access).Fault?
  {
    hide Reach, Page, Checked, Aligned, Refilled, Whole, EntryFor;
  }

  lemma HitIsWhole(m: Machine, s: Slot, a: bv64, len: bv64, access: Access)
    requires SlotOk(m, s) && TagMatches(s.Tag(access), Page(a))
    requires Aligned(a, len) && Leq(len, PGSIZE)
    ensures var r := Reach(m, a, len, access); r.Memory? && Whole(m, r.paddr)
  {
    HitIsTransparent(m, s, a, len, access);
    MatchIsLive(s.Tag(access), a);
    hide *;
    var r := Reach(m, a, len, access);
    ReachedIs(m, a, len, access);
    ServedFromStart(m, s, access);
    LeadsParts(m, PageStart(Page(a)), PGSIZE, access, s.data);
    FrameOfWhole(m, a, len, access, r.paddr);
    WholeIs(m, r.paddr);
  }

  lemma ReachedIs(m: Machine, a: bv64, len: bv64, access: Access)
    requires Aligned(a, len)
    ensures var r := Reach(m, a, len, access);
      r.Memory? ==> TranslateResult(m, a, len, access) == Translated(r.paddr)
  {
    hide TranslateResult, HostAddress;
  }

  lemma WholeIs(m: Machine, paddr: bv64)
    ensures Whole(m, paddr) <==> Homogeneous(m.pmp, PageBase(paddr), PGSIZE)
  {
    hide Homogeneous, PageBase;
  }

  /** With its tags marked, an access of a kind with armed triggers consults them exactly when it is
      one that triggers see: no hit slips past them. */
  lemma TriggersAsked(m: Machine, s: Slot, c: Checks, addr: bv64, len: bv64, access: Access)
    requires SlotOk(m, s) && Marked(c, s) && c.On(access) && Aligned(addr, len) && Leq(len, PGSIZE)
    ensures Asks(m, s, addr, len, access, c.On(access)) <==> Watched(m, addr, len, access)
  {
    PlainIsUnmarked(addr);
    DeadIsNoTag(addr);
    hide TranslateResult, HostAddress, Page, PageBase, Aligned, Leq, EntryFor, SlotOk, Homogeneous, Live, IsMarked,
        Checked, Reach, Whole, TagPage;
    assert s.Tag(access) != Page(addr);
    if access == Fetch && TagMatches(s.insn, Page(addr)) {
      HitIsWhole(m, s, addr, len, access);
    }
  }

  lemma RefillMarks(s: Slot, c: Checks, addr: bv64, access: Access, whole: bool, d: TlbEntry)
    requires Marked(c, s)
    ensures Marked(c, Refilled(s, Page(addr), access, c.On(access), whole, d))
  {
    CheckedIsMarked(Page(addr));
    DeadIsNoTag(addr);
    hide Page, Live, IsMarked, Checked, TagPage, Refilled;
    var r := Refilled(s, Page(addr), access, c.On(access), whole, d);
    forall t: Access | Live(r.Tag(t)) && c.On(t)
      ensures IsMarked(r.Tag(t))
    {
      TagOfRefill(s, Page(addr), access, c.On(access), whole, d, t);
    }
  }

  lemma TagOfRefill(s: Slot, vpn: bv64, access: Access, check: bool, whole: bool, d: TlbEntry, t: Access)
    ensures Refilled(s, vpn, access, check, whole, d).Tag(t)
         == if whole && t == access then WithTriggers(vpn, check) else Kept(s.Tag(t), vpn)
  {
    hide WithTriggers, Kept;
  }

  /** Refills keep the marks. */
  lemma AccessMarks(m: Machine, s: Slot, c: Checks, addr: bv64, len: bv64, access: Access, traced: bool)
    requires Marked(c, s) && Aligned(addr, len)
    ensures Marked(c, Accessed(m, s, addr, len, access, traced, c.On(access)))
  {
    hide Reach, Page, Aligned, EntryFor, Whole, TagMatches, Marked, Refilled;
    var r := Reach(m, addr, len, access);
    if r.Memory? { RefillMarks(s, c, addr, access, Whole(m, r.paddr), EntryFor(addr, r.haddr, r.paddr)); }
  }

  // ---------------------------------------------------------------------------------------
  // The TLB

  /** Every slot may be trusted. */
  ghost predicate AllOk(m: Machine, slots: seq<Slot>) {
    forall i | 0 <= i < |slots| :: SlotOk(m, slots[i])
  }

  predicate AllMarked(c: Checks, slots: seq<Slot>) {
    forall i | 0 <= i < |slots| :: Marked(c, slots[i])
  }

  function Flushed(slots: seq<Slot>): (r: seq<Slot>)
    ensures |r| == |slots|
  {
    seq(|slots|, i requires 0 <= i < |slots| => EMPTY_SLOT.(data := slots[i].data))
  }

  /** A flushed TLB may be trusted under every machine, and its tags are marked whatever is armed. */
  lemma FlushedIsOk(m: Machine, c: Checks, slots: seq<Slot>)
    ensures AllOk(m, Flushed(slots)) && AllMarked(c, Flushed(slots))
  {
    forall i | 0 <= i < |slots|
      ensures SlotOk(m, Flushed(slots)[i]) && Marked(c, Flushed(slots)[i])
    {
      FlushedOk(m, c, slots[i].data);
    }
  }

  function Index(a: bv64): (i: nat)
    ensures i < TLB_ENTRIES
  {
    (Page(a) % 256) as int
  }

  /** Arrays of different element types never coincide. */
  predicate Distinct(a: object, b: object) { a != b }

  class TlbCache {
    var insnTag: array<bv64>
    var loadTag: array<bv64>
    var storeTag: array<bv64>
    var data: array<TlbEntry>
    var checkFetch: bool
    var checkLoad: bool
    var checkStore: bool

    ghost predicate Valid()
      reads this
    {
      insnTag.Length == loadTag.Length == storeTag.Length == data.Length == TLB_ENTRIES &&
      insnTag != loadTag && insnTag != storeTag && loadTag != storeTag &&
      Distinct(data, insnTag) && Distinct(data, loadTag) && Distinct(data, storeTag)
    }

    ghost function SlotAt(i: nat): Slot
      requires Valid() && i < TLB_ENTRIES
      reads this, insnTag, loadTag, storeTag, data
    {
      Slot(insnTag[i], loadTag[i], storeTag[i], data[i])
    }

    ghost function Slots(): (r: seq<Slot>)
      requires Valid()
      reads this, insnTag, loadTag, storeTag, data
      ensures |r| == TLB_ENTRIES && forall i :: 0 <= i < TLB_ENTRIES ==> r[i] == SlotAt(i)
    {
      seq(TLB_ENTRIES, i requires 0 <= i < TLB_ENTRIES && Valid() reads this, insnTag, loadTag, storeTag, data =>
        SlotAt(i))
    }

    function Armed(): Checks
      reads this
    {
      Checks(checkFetch, checkLoad, checkStore)
    }

    /** Invalidates every tag. */
    method FlushTlb()
      requires Valid()
      modifies insnTag, loadTag, storeTag
      ensures Valid() && Slots() == Flushed(old(Slots()))
    {
      for i := 0 to TLB_ENTRIES
        invariant forall j :: 0 <= j < i ==> insnTag[j] == loadTag[j] == storeTag[j] == NO_TAG
      {
        insnTag[i], loadTag[i], storeTag[i] := NO_TAG, NO_TAG, NO_TAG;
      }
    }

    /** `trigger_updated`, which does not flush. */
    method Arm(c: Checks)
      requires Valid()
      modifies this`checkFetch, this`checkLoad, this`checkStore
      ensures Valid() && Slots() == old(Slots()) && Armed() == c
    {
      checkFetch, checkLoad, checkStore := c.fetch, c.load, c.store;
    }

    /** Installs the entry of a translated access, dropping tags of other pages; the tag of this
        kind of access is set only when protection does not cut the page. */
    method RefillTlb(m: Machine, vaddr: bv64, paddr: bv64, haddr: bv64, access: Access) returns (d: TlbEntry)
      requires Valid()
      modifies insnTag, loadTag, storeTag, data
      ensures Valid()
      ensures Armed() == old(Armed()) && d == EntryFor(vaddr, haddr, paddr)
      ensures Slots() == old(Slots())[Index(vaddr) :=
        Refilled(old(SlotAt(Index(vaddr))), Page(vaddr), access, Armed().On(access), Whole(m, paddr), d)]
    {
      hide Page, PageBase, Homogeneous, EntryFor, Index, WithTriggers, Aligned, Refilled, Dropped, Tagged;
      ghost var s := SlotAt(Index(vaddr));
      var idx := Index(vaddr);
      var expected := Page(vaddr);
      DropOthers(idx, expected);
      BaseAligned(paddr);
      var whole := PmpHomogeneous(m.pmp, PageBase(paddr), PGSIZE);
      var tag := WithTriggers(expected, Armed().On(access));
      SetTag(idx, tag, access, whole);
      d := EntryFor(vaddr, haddr, paddr);
      SetData(idx, d);
      RefilledInParts(s, expected, access, Armed().On(access), whole, d);
    }

    /** Invalidates the tags of a slot that name other pages than `vpn`. */
    method DropOthers(idx: nat, vpn: bv64)
      requires Valid() && idx < TLB_ENTRIES
      modifies insnTag, loadTag, storeTag
      ensures Slots() == old(Slots())[idx := Dropped(old(SlotAt(idx)), vpn)]
    {
      hide TagPage;
      if TagPage(loadTag[idx]) != vpn {
        loadTag[idx] := NO_TAG;
      }
      if TagPage(storeTag[idx]) != vpn {
        storeTag[idx] := NO_TAG;
      }
      if TagPage(insnTag[idx]) != vpn {
        insnTag[idx] := NO_TAG;
      }
    }

    method SetTag(idx: nat, tag: bv64, access: Access, whole: bool)
      requires Valid() && idx < TLB_ENTRIES
      modifies insnTag, loadTag, storeTag
      ensures Slots() == old(Slots())[idx := Tagged(old(SlotAt(idx)), tag, access, whole)]
    {
      if whole {
        match access {
          case Fetch => insnTag[idx] := tag;
          case Store => storeTag[idx] := tag;
          case Load => loadTag[idx] := tag;
        }
      }
    }

    method SetData(idx: nat, d: TlbEntry)
      requires Valid() && idx < TLB_ENTRIES
      modifies data
      ensures Slots() == old(Slots())[idx := old(SlotAt(idx)).(data := d)]
    {
      data[idx] := d;
    }

    /** One access through the TLB: a hit uses the cached entry, a miss takes the slow path and
        refills the slot. Either way the access ends where the slow path does. */
    method Access(m: Machine, addr: bv64, len: bv64, access: Access, traced: bool)
      returns (r: Reached, asked: bool)
      requires Valid() && SlotOk(m, SlotAt(Index(addr)))
      requires Aligned(addr, len) && Leq(len, PGSIZE)
      modifies insnTag, loadTag, storeTag, data
      ensures Valid() && Armed() == old(Armed()) && r == Reach(m, addr, len, access)
      ensures asked == Asks(m, old(SlotAt(Index(addr))), addr, len, access, Armed().On(access))
      ensures Slots() == old(Slots())[Index(addr) :=
        Accessed(m, old(SlotAt(Index(addr))), addr, len, access, traced, Armed().On(access))]
    {
      hide Page, Checked, Index, Aligned, Leq, SlotOk, Hit, Reach, TagMatches, Asks, Accessed;
      ghost var s := SlotAt(Index(addr));
      var idx := Index(addr);
      var tag := match access case Fetch => insnTag[idx] case Load => loadTag[idx] case Store => storeTag[idx];
      assert tag == SlotAt(idx).Tag(access);
      if TagMatches(tag, Page(addr)) {
        HitIsTransparent(m, s, addr, len, access);
        AsksOnHit(m, s, addr, len, access, traced, Armed().On(access));
        return Memory(Hit(addr, data[idx].target), Hit(addr, data[idx].host)), tag == Checked(Page(addr));
      }
      AsksOnMiss(m, s, addr, len, access, traced, Armed().On(access));
      r := SlowAccess(m, addr, len, access, traced);
      assert SlotAt(idx) == Accessed(m, s, addr, len, access, traced, Armed().On(access));
      asked := if access == Fetch then insnTag[idx] == Checked(Page(addr)) else !r.Fault?;
    }

    method SlowAccess(m: Machine, addr: bv64, len: bv64, access: Access, traced: bool) returns (r: Reached)
      requires Valid() && Aligned(addr, len) && Leq(len, PGSIZE)
      requires !TagMatches(SlotAt(Index(addr)).Tag(access), Page(addr))
      modifies insnTag, loadTag, storeTag, data
      ensures Valid() && Armed() == old(Armed()) && r == Reach(m, addr, len, access)
      ensures Slots() == old(Slots())[Index(addr) :=
        Accessed(m, old(SlotAt(Index(addr))), addr, len, access, traced, Armed().On(access))]
    {
      hide Page, PageBase, Homogeneous, Checked, Index, Aligned, Leq, TranslateResult, HostAddress, Refilled, EntryFor;
      var walked := Translate(m, addr, len, access);
      if !walked.Translated? {
        return Fault(walked);
      }
      var haddr := HostAddress(m.host, walked.addr);
      if haddr == None {
        return Device(walked.addr);
      }
      if access == Fetch || !traced {
        var _ := RefillTlb(m, addr, walked.addr, haddr.value, access);
      }
      return Memory(walked.addr, haddr.value);
    }
  }

  lemma BaseAligned(paddr: bv64)
    ensures Aligned(PageBase(paddr), PGSIZE)
  {
  }

  lemma FlushedOk(m: Machine, c: Checks, data: TlbEntry)
    ensures SlotOk(m, EMPTY_SLOT.(data := data)) && Marked(c, EMPTY_SLOT.(data := data))
  {
    hide Serves, IsPage;
  }
}
