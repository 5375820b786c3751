/** Whole runs through the TLB: accesses, flushes, changes of the machine that come without a flush,
    and triggers armed on the way. */
module TlbRuns {
  import opened Wrappers
  import opened Words
  import opened Pmp
  import opened Mmu
  import opened Tlb

  /** What is asked of the TLB. `Flush` comes with a new machine, as a write to `satp` does.
      `Change` is a new machine without a flush: new privilege or `mstatus`, other page tables.
      `Arm` is a change of the triggers. */
  datatype Request =
    | Touch(addr: bv64, len: bv64, access: Access, traced: bool)
    | Flush(m: Machine)
    | Change(m: Machine)
    | Arm(checks: Checks)

  /** Where an access ended, and whether it consulted the triggers. */
  datatype Seen = Seen(reached: Reached, asked: bool)

  /** Where it ends on the slow path, whether triggers for its kind are armed, and whether they see
      it. */
  datatype Due = Due(reached: Reached, armed: bool, watched: bool)

  predicate AllAligned(requests: seq<Request>) {
    forall i | 0 <= i < |requests| ::
      requests[i].Touch? ==> Aligned(requests[i].addr, requests[i].len) && Leq(requests[i].len, PGSIZE)
  }

  lemma RestAligned(requests: seq<Request>)
    requires AllAligned(requests) && |requests| > 0
    ensures AllAligned(requests[1..])
    ensures requests[0].Touch? ==> Aligned(requests[0].addr, requests[0].len) && Leq(requests[0].len, PGSIZE)
  {
    hide Aligned, Leq;
  }

  /** What is due of every access if there were no TLB. */
  function SlowPath(m: Machine, c: Checks, requests: seq<Request>): seq<Due>
    requires AllAligned(requests)
    decreases |requests|
  {
    if |requests| == 0 then []
    else
      RestAligned(requests);
      match requests[0]
      case Touch(addr, len, access, _) =>
        [Due(Reach(m, addr, len, access), c.On(access), Watched(m, addr, len, access))]
        + SlowPath(m, c, requests[1..])
      case Flush(next) => SlowPath(next, c, requests[1..])
      case Change(next) => SlowPath(next, c, requests[1..])
      case Arm(next) => SlowPath(m, next, requests[1..])
  }

  /** The slots after one access. */
  function Stepped(m: Machine, c: Checks, slots: seq<Slot>, addr: bv64, len: bv64, access: Access, traced: bool):
    (r: seq<Slot>)
    requires |slots| == TLB_ENTRIES && Aligned(addr, len)
    ensures |r| == TLB_ENTRIES
  {
    slots[Index(addr) := Accessed(m, slots[Index(addr)], addr, len, access, traced, c.On(access))]
  }

  /** What a run needs step by step: no access clashes, at a change without a flush every slot
      survives, and when triggers are armed all live tags of their kinds are marked. Each is decided
      before the step, on the slots as they are. */
  ghost predicate Trusted(m: Machine, c: Checks, slots: seq<Slot>, requests: seq<Request>)
    requires |slots| == TLB_ENTRIES && AllAligned(requests)
    decreases |requests|
  {
    |requests| > 0 ==>
      (RestAligned(requests);
       match requests[0]
       case Touch(addr, len, access, traced) =>
         && !Clashes(m, slots[Index(addr)], addr, len, access, traced)
         && Trusted(m, c, Stepped(m, c, slots, addr, len, access, traced), requests[1..])
       case Flush(next) => Trusted(next, c, Flushed(slots), requests[1..])
       case Change(next) => AllSurvive(m, next, slots) && Trusted(next, c, slots, requests[1..])
       case Arm(next) => AllMarked(next, slots) && Trusted(m, next, slots, requests[1..]))
  }

  ghost predicate AllSurvive(m: Machine, m': Machine, slots: seq<Slot>) {
    m'.host == m.host && forall i | 0 <= i < |slots| :: Survives(m', slots[i])
  }

  /** A change without a flush keeps the TLB trustworthy exactly when every slot survives it. */
  lemma ChangeKeepsAll(m: Machine, m': Machine, slots: seq<Slot>)
    requires AllOk(m, slots) && m'.host == m.host
    ensures AllOk(m', slots) <==> AllSurvive(m, m', slots)
  {
    hide SlotOk, Survives;
    forall i | 0 <= i < |slots|
      ensures SlotOk(m', slots[i]) <==> Survives(m', slots[i])
    {
      ChangeKeeps(m, m', slots[i]);
    }
  }

  /** An access keeps it so exactly when it does not clash, and the marks in any case. */
  lemma StepKeeps(m: Machine, c: Checks, slots: seq<Slot>, addr: bv64, len: bv64, access: Access, traced: bool)
    requires |slots| == TLB_ENTRIES && Aligned(addr, len) && AllOk(m, slots) && AllMarked(c, slots)
    ensures AllOk(m, Stepped(m, c, slots, addr, len, access, traced)) <==>
      !Clashes(m, slots[Index(addr)], addr, len, access, traced)
    ensures AllMarked(c, Stepped(m, c, slots, addr, len, access, traced))
  {
    hide SlotOk, Aligned, Accessed, Clashes, Marked, Index;
    var i := Index(addr);
    AccessKeeps(m, slots[i], addr, len, access, traced, c.On(access));
    AccessMarks(m, slots[i], c, addr, len, access, traced);
    var after := Stepped(m, c, slots, addr, len, access, traced);
    assert after[i] == Accessed(m, slots[i], addr, len, access, traced, c.On(access));
    assert forall j | 0 <= j < |slots| && j != i :: after[j] == slots[j];
  }

  predicate AsDue(x: Seen, y: Due) {
    x.reached == y.reached && (y.armed ==> x.asked == y.watched)
  }

  predicate AllAsDue(xs: seq<Seen>, ys: seq<Due>) {
    |xs| == |ys| && forall i :: 0 <= i < |xs| ==> AsDue(xs[i], ys[i])
  }

  /** Every run of this kind ends, access by access, where the slow path does, and no access of a
      kind with armed triggers slips past them. */
  method Run(tlb: TlbCache, m: Machine, requests: seq<Request>) returns (seen: seq<Seen>)
    requires tlb.Valid() && AllAligned(requests)
    requires AllOk(m, tlb.Slots()) && AllMarked(tlb.Armed(), tlb.Slots())
    requires Trusted(m, tlb.Armed(), tlb.Slots(), requests)
    modifies tlb`checkFetch, tlb`checkLoad, tlb`checkStore, tlb.insnTag, tlb.loadTag, tlb.storeTag, tlb.data
    ensures tlb.Valid() && AllAsDue(seen, SlowPath(m, old(tlb.Armed()), requests))
  {
    hide Reach, Aligned, Leq, SlotOk, Clashes, Index, Asks, Watched, Marked, Survives, Flushed, Accessed, Checks.On;
    seen := [];
    var now, i := m, 0;
    ghost var due: seq<Due> := [];
    while i < |requests|
      invariant 0 <= i <= |requests| && AllAligned(requests[i..])
      invariant tlb.Valid() && AllOk(now, tlb.Slots()) && AllMarked(tlb.Armed(), tlb.Slots())
      invariant Trusted(now, tlb.Armed(), tlb.Slots(), requests[i..])
      invariant SlowPath(m, old(tlb.Armed()), requests) == due + SlowPath(now, tlb.Armed(), requests[i..])
      invariant AllAsDue(seen, due)
    {
      ghost var rest := requests[i..];
      RestAligned(rest);
      var q := requests[i];
      assert rest[0] == q && rest[1..] == requests[i + 1..];
      match q {
        case Touch(addr, len, access, traced) =>
          ghost var c, slots := tlb.Armed(), tlb.Slots();
          StepKeeps(now, c, slots, addr, len, access, traced);
          if c.On(access) { TriggersAsked(now, slots[Index(addr)], c, addr, len, access); }
          var r, asked := tlb.Access(now, addr, len, access, traced);
          assert tlb.Slots() == Stepped(now, c, slots, addr, len, access, traced);
          seen := seen + [Seen(r, asked)];
          due := due + [Due(Reach(now, addr, len, access), c.On(access), Watched(now, addr, len, access))];
        case Flush(next) =>
          FlushedIsOk(next, tlb.Armed(), tlb.Slots());
          tlb.FlushTlb();
          now := next;
        case Change(next) =>
          ChangeKeepsAll(now, next, tlb.Slots());
          now := next;
        case Arm(c) =>
          tlb.Arm(c);
      }
      i := i + 1;
    }
  }

  // ---------------------------------------------------------------------------------------
  // Runs that need no look at the slots

  /** Loads and stores are translated with the privilege of fetches. */
  predicate MprvOff(m: Machine) { !m.mprv || m.debugging || m.mpp == m.prv }

  /** Accesses, and flushes to machines with MPRV off. */
  predicate Plain(requests: seq<Request>) {
    forall i | 0 <= i < |requests| :: requests[i].Touch? || (requests[i].Flush? && MprvOff(requests[i].m))
  }

  /** With MPRV off and a flush at every change, as at writes to `satp` and at `sfence.vma`, any run
      through a trustworthy TLB is of the kind that `Run` serves. */
  lemma {:induction false} PlainIsTrusted(m: Machine, c: Checks, slots: seq<Slot>, requests: seq<Request>)
    requires |slots| == TLB_ENTRIES && AllOk(m, slots) && AllMarked(c, slots)
    requires AllAligned(requests) && MprvOff(m) && Plain(requests)
    ensures Trusted(m, c, slots, requests)
    decreases |requests|
  {
    hide Aligned, Leq, SlotOk, Clashes, Index, Marked, Flushed, Accessed, MprvOff;
    if |requests| > 0 {
      RestAligned(requests);
      match requests[0]
      case Touch(addr, len, access, traced) =>
        OneSchemeOf(m);
        NoClash(m, slots[Index(addr)], addr, len, access, traced);
        StepKeeps(m, c, slots, addr, len, access, traced);
        PlainIsTrusted(m, c, Stepped(m, c, slots, addr, len, access, traced), requests[1..]);
      case Flush(next) =>
        FlushedIsOk(next, c, slots);
        PlainIsTrusted(next, c, Flushed(slots), requests[1..]);
      case _ => assert false;
    }
  }

  lemma OneSchemeOf(m: Machine)
    requires MprvOff(m)
    ensures OneScheme(m)
  {
    WithoutMprv(m);
    hide OneScheme;
  }

  // ---------------------------------------------------------------------------------------
  // Inputs at which the TLB goes wrong

  /** All addresses are memory, at the same place on the host, and one entry allows everything, as
      after a reset. */
  function Machine0(prv: bv64, mprv: bool, pte: bv64): Machine {
    Machine([AllAllowed()], false, prv, mprv, PRV_S, false, 0x8000_0000_0000_0000, false, false,
            p => Some(p), p => if p == 0 then pte else 0)
  }

  lemma Host0(prv: bv64, mprv: bool, pte: bv64, paddr: bv64)
    ensures HostAddress(Machine0(prv, mprv, pte).host, paddr) == Some(paddr)
  {
    SplitAddress(paddr);
    hide PageBase, PageOffset, Sum;
  }

  /** A slot after an access to the first page at this distance. */
  function First(access: Access, d: TlbEntry): Slot { Refilled(EMPTY_SLOT, 0, access, false, true, d) }

  /** MPRV: in machine mode, with loads translated as a supervisor's, a fetch and a load of the first
      page are cached in one slot; the second takes the place of the entry of the first, whose tag
      stays, so that the next fetch from the page goes astray. */
  lemma MprvClashes()
    ensures var m := Machine0(PRV_M, true, GIGAPAGE);
      var s := First(Fetch, TlbEntry(0, 0));
      var r := Accessed(m, s, 0, 1, Load, false, false);
      && SlotOk(m, s) && Reach(m, 0, 1, Load) == Memory(0x4000_0000, 0x4000_0000)
      && Clashes(m, s, 0, 1, Load, false)
      && TagMatches(r.Tag(Fetch), Page(0)) && Reach(m, 0, 1, Fetch) == Memory(0, 0)
      && Hit(0, r.data.target) == 0x4000_0000
  {
    var m, s := Machine0(PRV_M, true, GIGAPAGE), First(Fetch, TlbEntry(0, 0));
    MprvReaches(m);
    FirstPage();
    FirstMatches(Fetch, TlbEntry(0, 0));
    SecondTag(s, TlbEntry(0x4000_0000, 0x4000_0000));
    hide SlotOk, Reach, Whole, Aligned, Page, EntryFor, First, Refilled, KeptAgree, TagMatches, Hit, Machine0;
  }

  /** The second entry replaces the first, whose tag stays. */
  lemma SecondTag(s: Slot, d: TlbEntry)
    requires s == First(Fetch, TlbEntry(0, 0)) && d != TlbEntry(0, 0)
    ensures var r := Refilled(s, 0, Load, false, true, d); r.Tag(Fetch) == s.Tag(Fetch) && r.data == d
    ensures !TagMatches(s.Tag(Load), 0) && !KeptAgree(s, 0, Load, true, d)
  {
    assert Live(Kept(s.Tag(Fetch), 0));
  }

  lemma MprvReaches(m: Machine)
    requires m == Machine0(PRV_M, true, GIGAPAGE)
    ensures Aligned(0, 1) && Reach(m, 0, 1, Load) == Memory(0x4000_0000, 0x4000_0000)
    ensures Reach(m, 0, 1, Fetch) == Memory(0, 0) && SlotOk(m, First(Fetch, TlbEntry(0, 0)))
    ensures Whole(m, 0x4000_0000)
  {
    BareSlot(m, Fetch);
    MappedIs(m);
    GigapageLoad(m);
    Host0(PRV_M, true, GIGAPAGE, 0x4000_0000);
    AllAllowedPage(0x4000_0000, Load, PRV_S);
    hide SlotOk, TranslateResult, Homogeneous, Aligned, PageBase, HostAddress, AllAllowed, First;
  }

  lemma MappedIs(m: Machine)
    requires m == Machine0(PRV_M, true, GIGAPAGE)
    ensures Mapped(m)
  {
    Host0(PRV_M, true, GIGAPAGE, 0);
    hide HostAddress;
  }

  lemma FirstPage()
    ensures Page(0) == 0 && Aligned(0, 1) && EntryFor(0, 0, 0) == TlbEntry(0, 0)
    ensures EntryFor(0, 0x4000_0000, 0x4000_0000) == TlbEntry(0x4000_0000, 0x4000_0000)
    ensures Hit(0, 0x4000_0000) == 0x4000_0000
  {
  }

  /** Machine mode translates nothing, and the first page may be cached. */
  lemma BareSlot(m: Machine, access: Access)
    requires m == Machine0(PRV_M, m.mprv, m.word(0)) && (m.mprv ==> access == Fetch)
    ensures Aligned(0, 1) && TranslateResult(m, 0, 1, access) == Translated(0)
    ensures HostAddress(m.host, 0) == Some(0) && SlotOk(m, First(access, TlbEntry(0, 0)))
  {
    FirstPage();
    BareAccess(m, access);
    Host0(PRV_M, m.mprv, m.word(0), 0);
    AllAllowedPage(0, access, PRV_M);
    FirstSlotOk(m, access);
  }

  lemma FirstSlotOk(m: Machine, access: Access)
    requires Aligned(0, 1) && TranslateResult(m, 0, 1, access) == Translated(0) && HostAddress(m.host, 0) == Some(0)
    requires Homogeneous(m.pmp, PageBase(0), PGSIZE)
    ensures SlotOk(m, First(access, TlbEntry(0, 0)))
  {
    FirstPage();
    EmptyOk(m);
    NothingKept();
    hide *;
    RefillKeeps(m, EMPTY_SLOT, 0, 1, access, 0, 0, false, true);
    FirstIs(access);
  }

  lemma FirstIs(access: Access)
    ensures First(access, TlbEntry(0, 0)) == Refilled(EMPTY_SLOT, 0, access, false, true, TlbEntry(0, 0))
  {
    hide Refilled;
  }

  lemma EmptyOk(m: Machine)
    ensures SlotOk(m, EMPTY_SLOT)
  {
    FlushedOk(m, Checks(false, false, false), TlbEntry(0, 0));
    hide SlotOk, Marked;
  }

  lemma NothingKept()
    ensures forall access: Access :: KeptAgree(EMPTY_SLOT, 0, access, true, TlbEntry(0, 0))
  {
  }

  /** An entry that grants everything everywhere. */
  function AllAllowed(): Entry { Entry(PMP_NAPOT | PMP_R | PMP_W | PMP_X, 0xFFFF_FFFF_FFFF_FFFF) }

  /** A leaf at the top level that maps the first gigabyte to the second. */
  const GIGAPAGE: bv64 := (0x4_0000 << 10) | PTE_V | PTE_R | PTE_W | PTE_X | PTE_A | PTE_D

  lemma AllowedCovers(x: bv64)
    ensures Matches(0, AllAllowed(), x)
  {
  }

  lemma AllowedPermits(x: bv64, access: Access, mode: bv64)
    ensures Permitted([AllAllowed()], 0, x, access, mode)
  {
    AllowedGrants(access, mode);
    AllowedCovers(x);
    MatchesIsCovers(0, AllAllowed(), x);
    hide Matches, Covers, Grants, Tor;
    assert CoveredBy([AllAllowed()], 0, x);
  }

  lemma AllowedGrants(access: Access, mode: bv64)
    ensures Grants(AllAllowed().cfg, access, mode)
  {
  }

  lemma AllowedWhole(addr: bv64, len: bv64)
    requires PowerOfTwo(len)
    ensures Homogeneous([AllAllowed()], addr, len)
  {
    assert EntryHomogeneous(0, AllAllowed(), addr, len);
  }

  lemma AllAllowedPage(paddr: bv64, access: Access, mode: bv64)
    ensures Permitted([AllAllowed()], 0, paddr, access, mode)
    ensures Homogeneous([AllAllowed()], paddr, 1) && Homogeneous([AllAllowed()], PageBase(paddr), PGSIZE)
  {
    AllowedPermits(paddr, access, mode);
    assert PowerOfTwo(1) && PowerOfTwo(PGSIZE);
    AllowedWhole(paddr, 1);
    AllowedWhole(PageBase(paddr), PGSIZE);
  }

  lemma BareAccess(m: Machine, access: Access)
    requires m.prv == PRV_M && !m.xlen32 && m.pmp == [AllAllowed()] && (m.mprv ==> access == Fetch)
    ensures TranslateResult(m, 0, 1, access) == Translated(0)
  {
    AllAllowedPage(0, access, PRV_M);
    hide Permitted, Homogeneous;
  }

  lemma GigapageLeaf(m: Machine)
    requires m.mprv && !m.debugging && m.mpp == PRV_S
    ensures !IsTable(GIGAPAGE) && !LeafDenied(m, GIGAPAGE, Load, 18) && LeafFrame(GIGAPAGE, 0, 18) == 0x4000_0000
  {
  }

  lemma GigapageWalk(m: Machine, vm: VmInfo)
    requires m.mprv && !m.debugging && m.mpp == PRV_S
    requires m.pmp == [AllAllowed()] && Mapped(m) && vm == Scheme(3, 9, 8, 0)
    ensures WalkFrom(m, vm, 0, Load, 3, 0) == Translated(0x4000_0000)
  {
    AllAllowedPage(0, Load, PRV_S);
    GigapageLeaf(m);
    hide IsTable, LeafDenied, LeafFrame, Permitted, Homogeneous;
    var ptshift := PtShift(vm, 2);
    assert ptshift == 18;
    var at := EntryAddress(vm, 0, TableIndex(vm, 0, ptshift));
    assert at == 0;
    BackedZero(m);
    var pte := ReadEntry(vm, m.word(at));
    assert pte == GIGAPAGE;
    assert WalkFrom(m, vm, 0, Load, 3, 0) == Translated(LeafFrame(pte, 0, ptshift));
  }

  lemma GigapageScheme(m: Machine)
    requires m.mprv && !m.debugging && m.mpp == PRV_S && !m.xlen32 && m.satp == 0x8000_0000_0000_0000
    ensures DecodeVmInfo(m, Mode(m, Load)) == Some(Scheme(3, 9, 8, 0)) && Canonical(Scheme(3, 9, 8, 0), 0)
  {
  }

  lemma GigapageLoad(m: Machine)
    requires m.mprv && !m.debugging && m.mpp == PRV_S && !m.xlen32 && m.satp == 0x8000_0000_0000_0000
    requires m.pmp == [AllAllowed()] && Mapped(m)
    ensures TranslateResult(m, 0, 1, Load) == Translated(0x4000_0000)
  {
    hide WalkResult, Join, PageOffset, Permitted, Homogeneous, Mode, AllAllowed, Aligned;
    GigapageResult(m);
    AllAllowedPage(0x4000_0000, Load, Mode(m, Load));
    JoinZero(0x4000_0000);
  }

  lemma GigapageResult(m: Machine)
    requires m.mprv && !m.debugging && m.mpp == PRV_S && !m.xlen32 && m.satp == 0x8000_0000_0000_0000
    requires m.pmp == [AllAllowed()] && Mapped(m)
    ensures WalkResult(m, 0, Load) == Translated(0x4000_0000)
  {
    hide *;
    GigapageScheme(m);
    GigapageWalk(m, Scheme(3, 9, 8, 0));
    WalkIs(m, 0, Load, Scheme(3, 9, 8, 0));
  }

  lemma JoinZero(frame: bv64)
    ensures Join(frame, PageOffset(0)) == frame
  {
  }

  /** The first word of memory maps the first gigabyte, and all addresses are memory. */
  predicate Mapped(m: Machine) { m.word(0) == GIGAPAGE && HostAddress(m.host, 0).Some? }

  lemma BackedZero(m: Machine)
    requires Mapped(m)
    ensures HostAddress(m.host, 0).Some? && m.word(0) == GIGAPAGE
  {
    hide HostAddress;
  }

  /** Privilege: the change from machine to supervisor mode comes without a flush, since that in
      `set_privilege` is commented out; a page cached before it is still hit, where the page tables
      have a fault. */
  lemma PrivilegeNeedsFlush()
    ensures var m, m' := Machine0(PRV_M, false, 0), Machine0(PRV_S, false, 0);
      var s := First(Load, TlbEntry(0, 0));
      && SlotOk(m, s) && !SlotOk(m', s) && !Survives(m', s)
      && TagMatches(s.Tag(Load), Page(0)) && Reach(m', 0, 1, Load) == Fault(PageFault)
  {
    var m, m', s := Machine0(PRV_M, false, 0), Machine0(PRV_S, false, 0), First(Load, TlbEntry(0, 0));
    FirstPage();
    BareSlot(m, Load);
    UnmappedLoad(m');
    FirstMatches(Load, TlbEntry(0, 0));
    hide SlotOk, TranslateResult, Aligned, Page, HostAddress, AllAllowed, Survives, TagMatches, First;
    ByteAligned(0);
    if SlotOk(m', s) { HitIsTransparent(m', s, 0, 1, Load); }
    ChangeKeeps(m, m', s);
  }

  lemma FirstMatches(access: Access, d: TlbEntry)
    ensures First(access, d).Tag(access) == Page(0) && TagMatches(First(access, d).Tag(access), Page(0))
  {
  }

  lemma UnmappedWalk(m: Machine, vm: VmInfo)
    requires m == Machine0(PRV_S, false, 0) && vm == Scheme(3, 9, 8, 0)
    ensures WalkFrom(m, vm, 0, Load, 3, 0) == PageFault
  {
    AllAllowedPage(0, Load, PRV_S);
    Host0(PRV_S, false, 0, 0);
    hide Permitted, Homogeneous;
    var ptshift := PtShift(vm, 2);
    assert ptshift == 18;
    var at := EntryAddress(vm, 0, TableIndex(vm, 0, ptshift));
    assert at == 0;
    var pte := ReadEntry(vm, m.word(at));
    assert pte == 0 && !IsTable(0) && LeafDenied(m, 0, Load, 18);
  }

  lemma UnmappedScheme(m: Machine)
    requires m == Machine0(PRV_S, false, 0)
    ensures DecodeVmInfo(m, Mode(m, Load)) == Some(Scheme(3, 9, 8, 0)) && Canonical(Scheme(3, 9, 8, 0), 0)
  {
  }

  lemma UnmappedLoad(m: Machine)
    requires m == Machine0(PRV_S, false, 0)
    ensures Aligned(0, 1) && TranslateResult(m, 0, 1, Load) == PageFault
  {
    FirstPage();
    UnmappedResult(m);
    hide WalkResult, Aligned, Machine0;
  }

  lemma UnmappedResult(m: Machine)
    requires m == Machine0(PRV_S, false, 0)
    ensures WalkResult(m, 0, Load) == PageFault
  {
    hide *;
    UnmappedScheme(m);
    UnmappedWalk(m, Scheme(3, 9, 8, 0));
    WalkIs(m, 0, Load, Scheme(3, 9, 8, 0));
  }

  lemma WalkIs(m: Machine, addr: bv64, access: Access, vm: VmInfo)
    requires DecodeVmInfo(m, Mode(m, access)) == Some(vm) && vm.levels != 0 && Canonical(vm, addr)
    ensures WalkResult(m, addr, access) == WalkFrom(m, vm, addr, access, vm.levels, vm.ptbase)
  {
    hide DecodeVmInfo, Canonical, WalkFrom, Mode;
  }

  /** Triggers: arming one for loads does not flush either, since that in `trigger_updated` is
      commented out; a page cached before it is hit without a look at the triggers. */
  lemma TriggerNeedsFlush()
    ensures var m, s := Machine0(PRV_M, false, 0), First(Load, TlbEntry(0, 0));
      && SlotOk(m, s) && Marked(Checks(false, false, false), s) && !Marked(Checks(false, true, false), s)
      && Watched(m, 0, 1, Load) && !Asks(m, s, 0, 1, Load, true)
  {
    var m, s := Machine0(PRV_M, false, 0), First(Load, TlbEntry(0, 0));
    FirstPage();
    BareSlot(m, Load);
    FirstMatches(Load, TlbEntry(0, 0));
    PlainIsUnmarked(0);
    hide SlotOk, TranslateResult, Aligned, Page, HostAddress, AllAllowed, First, IsMarked, Live;
    assert Checks(false, true, false).On(Load);
  }

  /** A fetch that is not from memory never consults the triggers, armed or not. */
  lemma DeviceFetchUnseen()
    ensures var m := Machine0(PRV_M, false, 0).(host := p => None);
      Reach(m, 0, 1, Fetch) == Device(0) && !Asks(m, EMPTY_SLOT, 0, 1, Fetch, true)
  {
    var m := Machine0(PRV_M, false, 0).(host := p => None);
    FirstPage();
    BareAccess(m, Fetch);
    DeadIsNoTag(0);
    assert HostAddress(m.host, 0) == None;
    hide TranslateResult, Aligned, Page, HostAddress, AllAllowed, Live, Checked;
  }
}
