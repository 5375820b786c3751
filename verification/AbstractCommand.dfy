/** The debug module's compiler from abstract commands to instructions, and what the hart does
    when it executes the result. */
module AbstractCommand {
  import opened Bytes
  import opened Insn

  // ---------------------------------------------------------------------------------------
  // The compiler

  const S0: bv32 := 8
  const CSR_MSTATUS: bv64 := 0x300
  const CSR_DSCRATCH: bv32 := 0x7b2
  const DSCRATCH: bv64 := CSR_DSCRATCH as bv64
  const DEBUG_DATA_START: bv32 := 0x380

  const CMDERR_NONE: bv8 := 0
  const CMDERR_BUSY: bv8 := 1
  const CMDERR_NOTSUP: bv8 := 2
  const CMDERR_EXCEPTION: bv8 := 3
  const CMDERR_HALTRESUME: bv8 := 4

  function Size(command: bv32): bv32 { (command >> 20) & 7 }
  predicate PostExec(command: bv32) { (command >> 18) & 1 == 1 }
  predicate Transfers(command: bv32) { (command >> 17) & 1 == 1 }
  predicate Writes(command: bv32) { (command >> 16) & 1 == 1 }
  function RegNo(command: bv32): bv32 { command & 0xffff }

  /** What a command asks to access. */
  datatype Target =
    | Nothing | GprTarget(r: bv32) | FprTarget(r: bv32) | CsrTarget(c: bv32) | CustomTarget(n: bv32) | Unsupported

  function TargetOf(command: bv32, progbufsize: nat): Target {
    var regno := RegNo(command);
    if !Transfers(command) then Nothing
    else if regno < 0x1000 && progbufsize < 2 then CsrTarget(regno)
    else if regno >= 0x1000 && regno < 0x1020 then GprTarget(regno - 0x1000)
    else if regno >= 0x1020 && regno < 0x1040 then FprTarget(regno - 0x1020)
    else if regno >= 0xc000 && regno & 1 == 1 then CustomTarget(regno - 0xc000)
    else Unsupported
  }

  function LoadData(size: bv32, r: bv32): bv32 {
    if size == 2 then Load(MATCH_LW, r, 0, DEBUG_DATA_START) else Load(MATCH_LD, r, 0, DEBUG_DATA_START)
  }

  function StoreData(size: bv32, r: bv32): bv32 {
    if size == 2 then Store(MATCH_SW, r, 0, DEBUG_DATA_START) else Store(MATCH_SD, r, 0, DEBUG_DATA_START)
  }

  function LoadDataFp(size: bv32, r: bv32): bv32 {
    if size == 2 then Load(MATCH_FLW, r, 0, DEBUG_DATA_START) else Load(MATCH_FLD, r, 0, DEBUG_DATA_START)
  }

  function StoreDataFp(size: bv32, r: bv32): bv32 {
    if size == 2 then StoreFp(MATCH_FSW, r, 0, DEBUG_DATA_START) else StoreFp(MATCH_FSD, r, 0, DEBUG_DATA_START)
  }

  predicate SizeOk(size: bv32) { size == 2 || size == 3 }

  /** `Launch`: the words are to be executed. `Failed`: the error, and the words that had been
      written before it was found. `Custom`: served by the debug module itself. */
  datatype Compiled =
    | Launch(words: seq<bv32>)
    | Failed(words: seq<bv32>, cmderr: bv8)
    | Custom(number: bv32)

  /** The instructions that move the data. */
  function TransferCode(command: bv32, target: Target): (r: Compiled)
    ensures !r.Custom? ==> |r.words| <= 4
  {
    var size, write := Size(command), Writes(command);
    match target
    case Nothing => Launch([])
    case CsrTarget(c) =>
      if write then
        if SizeOk(size)
        then Launch([Csrw(S0, CSR_DSCRATCH), LoadData(size, S0), Csrw(S0, c), Csrr(S0, CSR_DSCRATCH)])
        else Failed([Csrw(S0, CSR_DSCRATCH)], CMDERR_NOTSUP)
      else
        if SizeOk(size)
        then Launch([Csrw(S0, CSR_DSCRATCH), Csrr(S0, c), StoreData(size, S0), Csrr(S0, CSR_DSCRATCH)])
        else Failed([Csrw(S0, CSR_DSCRATCH), Csrr(S0, c)], CMDERR_NOTSUP)
    case GprTarget(r) =>
      if !SizeOk(size) then Failed([], CMDERR_NOTSUP)
      else Launch([if write then LoadData(size, r) else StoreData(size, r)])
    case FprTarget(r) =>
      if !SizeOk(size) then Failed([], CMDERR_NOTSUP)
      else Launch([if write then LoadDataFp(size, r) else StoreDataFp(size, r)])
    case CustomTarget(n) => Custom(n)
    case Unsupported => Failed([], CMDERR_NOTSUP)
  }

  /** The offset from word `i` of the abstract code to the first word of the program buffer. */
  function ToProgbuf(i: nat): bv32
    requires i <= 4
  {
    20 - 4 * (i as bv32)
  }

  /** The whole program: the transfer, then either a jump to the program buffer or `ebreak`. */
  function Compile(command: bv32, progbufsize: nat): Compiled {
    match TransferCode(command, TargetOf(command, progbufsize))
    case Launch(words) =>
      Launch(words + [if PostExec(command) then Jal(0, ToProgbuf(|words|)) else MATCH_EBREAK])
    case other => other
  }

  /** At most five words are written, so `debug_abstract` never overflows. */
  lemma FitsInFiveWords(command: bv32, progbufsize: nat)
    ensures var c := Compile(command, progbufsize); !c.Custom? ==> |c.words| <= 5
    ensures var c := Compile(command, progbufsize); c.Launch? ==> |c.words| > 0
  {
    hide Jal, Load, Store, StoreFp, Csrw, Csrr;
    var t := TargetOf(command, progbufsize);
    match TransferCode(command, t)
    case Launch(words) => assert |words| <= 4;
    case other =>
  }

  // ---------------------------------------------------------------------------------------
  // Execution

  /** A floating-point register: 128 bits, narrower values being boxed in all ones. */
  datatype Freg = Freg(lo: bv64, hi: bv64)

  /** What the hart implements. `legal(c, v)` is what CSR `c` holds after `v` is written to it;
      `dscratch` takes any value. */
  datatype Config = Config(rv64: bool, hasF: bool, hasD: bool, legal: (bv64, bv64) -> bv64)

  /** The number of a register or CSR. */
  datatype Number = N(n: bv64)

  /** The two words of `dmdata`. */
  type DataArea = s: seq<bv8> | |s| == 8 witness [0, 0, 0, 0, 0, 0, 0, 0]

  /** `pc` counts from the start of the abstract code. The rest are the hart's registers and the
      debug module's data area. */
  datatype Machine = Machine(pc: bv64, x: map<Number, bv64>, f: map<Number, Freg>, csr: map<Number, bv64>,
      data: DataArea)

  datatype Outcome = Next(m: Machine) | Stopped(why: Reason, m: Machine)
  datatype Reason = Breakpoint | Exception | AtProgbuf | Elsewhere

  ghost predicate Ready(cfg: Config, m: Machine) {
    && (forall r: bv64 :: r < 32 ==> N(r) in m.x && N(r) in m.f)
    && m.x[N(0)] == 0
    && N(CSR_MSTATUS) in m.csr && N(DSCRATCH) in m.csr
    && Narrow(cfg, m.x[N(8)]) == m.x[N(8)]
  }

  /** Wrapping addition. */
  function Plus(a: bv64, b: bv64): bv64 { a + b }

  function Low(v: bv64): bv32 { (v & 0xffff_ffff) as bv32 }
  function High(v: bv64): bv32 { (v >> 32) as bv32 }
  function Wide(lo: bv32, hi: bv32): bv64 { (lo as bv64) | ((hi as bv64) << 32) }

  /** `sext_xlen`. */
  function Narrow(cfg: Config, v: bv64): bv64 { if cfg.rv64 then v else SignExtend32(Low(v)) }

  function X(m: Machine, r: bv64): bv64 { if N(r) in m.x then m.x[N(r)] else 0 }

  /** Register 0 ignores writes. */
  function SetX(m: Machine, r: bv64, v: bv64): Machine {
    if r == 0 then m else m.(x := m.x[N(r) := v])
  }

  function DataWord(m: Machine): bv32
  {
    Read32(m.data, 0)
  }

  function DataDouble(m: Machine): bv64
  {
    Wide(Read32(m.data, 0), Read32(m.data, 1))
  }

  function SetDataWord(m: Machine, v: bv32): Machine
  {
    m.(data := Write32(m.data, 0, v))
  }

  function SetDataDouble(m: Machine, v: bv64): Machine
  {
    m.(data := Write32(Write32(m.data, 0, Low(v)), 1, High(v)))
  }

  function Boxed32(w: bv32): Freg { Freg(0xffff_ffff_0000_0000 | (w as bv64), 0xffff_ffff_ffff_ffff) }
  function Boxed64(v: bv64): Freg { Freg(v, 0xffff_ffff_ffff_ffff) }

  const MSTATUS_FS: bv64 := 0x6000

  predicate FpOn(m: Machine) { N(CSR_MSTATUS) in m.csr && m.csr[N(CSR_MSTATUS)] & MSTATUS_FS != 0 }

  /** `dirty_fp_state` as it is written: it masks `mstatus` instead of setting bits in it. */
  function DirtyFp(cfg: Config, m: Machine): Machine
    requires N(CSR_MSTATUS) in m.csr
  {
    m.(csr := m.csr[N(CSR_MSTATUS) := FsAndSd(cfg, m.csr[N(CSR_MSTATUS)])])
  }

  function FsAndSd(cfg: Config, v: bv64): bv64 {
    if cfg.rv64 then v & 0x8000_0000_0000_6000 else v & 0x8000_6000
  }

  function SetF(cfg: Config, m: Machine, r: bv64, v: Freg): Machine
    requires N(CSR_MSTATUS) in m.csr
  {
    DirtyFp(cfg, m.(f := m.f[N(r) := v]))
  }

  predicate ReadOnly(c: bv64) { (c >> 10) & 3 == 3 }

  predicate CanWrite(m: Machine, c: bv64) { N(c) in m.csr && !ReadOnly(c) }

  function SetCsr(cfg: Config, m: Machine, c: bv64, v: bv64): Machine {
    m.(csr := m.csr[N(c) := if c == DSCRATCH then v else cfg.legal(c, v)])
  }

  function Trap(m: Machine): Outcome { Stopped(Exception, m) }

  function Continue(m: Machine): Outcome { Next(m.(pc := Plus(m.pc, 4))) }

  /** A data access other than to the start of the debug module's data area is not part of this
      model and stops with `Elsewhere`. */
  predicate AtData(m: Machine, rs1: bv64, imm: bv64) { Plus(X(m, rs1), imm) == 0x380 }

  function ExecLoad(cfg: Config, m: Machine, wide: bool, rd: bv64, rs1: bv64, imm: bv64): Outcome {
    if wide && !cfg.rv64 then Trap(m)
    else if !AtData(m, rs1, imm) then Stopped(Elsewhere, m)
    else Continue(SetX(m, rd, if wide then DataDouble(m) else SignExtend32(DataWord(m))))
  }

  function ExecStore(cfg: Config, m: Machine, wide: bool, rs2: bv64, rs1: bv64, imm: bv64): Outcome {
    if wide && !cfg.rv64 then Trap(m)
    else if !AtData(m, rs1, imm) then Stopped(Elsewhere, m)
    else Continue(if wide then SetDataDouble(m, X(m, rs2)) else SetDataWord(m, Low(X(m, rs2))))
  }

  function ExecLoadFp(cfg: Config, m: Machine, wide: bool, rd: bv64, rs1: bv64, imm: bv64): Outcome {
    if !(if wide then cfg.hasD else cfg.hasF) || !FpOn(m) then Trap(m)
    else if !AtData(m, rs1, imm) then Stopped(Elsewhere, m)
    else Continue(SetF(cfg, m, rd, if wide then Boxed64(DataDouble(m)) else Boxed32(DataWord(m))))
  }

  function ExecStoreFp(cfg: Config, m: Machine, wide: bool, rs2: bv64, rs1: bv64, imm: bv64): Outcome {
    if !(if wide then cfg.hasD else cfg.hasF) || !FpOn(m) then Trap(m)
    else if !AtData(m, rs1, imm) || N(rs2) !in m.f then Stopped(Elsewhere, m)
    else Continue(if wide then SetDataDouble(m, m.f[N(rs2)].lo) else SetDataWord(m, Low(m.f[N(rs2)].lo)))
  }

  function ExecCsrrw(cfg: Config, m: Machine, rd: bv64, rs1: bv64, csr: bv64): Outcome {
    if !CanWrite(m, csr) then Trap(m)
    else Continue(SetX(SetCsr(cfg, m, csr, X(m, rs1)), rd, Narrow(cfg, m.csr[N(csr)])))
  }

  function ExecCsrrs(cfg: Config, m: Machine, rd: bv64, rs1: bv64, csr: bv64): Outcome {
    if N(csr) !in m.csr || (rs1 != 0 && ReadOnly(csr)) then Trap(m)
    else
      var m' := if rs1 != 0 then SetCsr(cfg, m, csr, m.csr[N(csr)] | X(m, rs1)) else m;
      Continue(SetX(m', rd, Narrow(cfg, m.csr[N(csr)])))
  }

  function Exec(cfg: Config, m: Machine, i: Instr): Outcome {
    match i
    case Lw(rd, rs1, imm) => ExecLoad(cfg, m, false, rd, rs1, imm)
    case Ld(rd, rs1, imm) => ExecLoad(cfg, m, true, rd, rs1, imm)
    case Flw(rd, rs1, imm) => ExecLoadFp(cfg, m, false, rd, rs1, imm)
    case Fld(rd, rs1, imm) => ExecLoadFp(cfg, m, true, rd, rs1, imm)
    case Sw(rs2, rs1, imm) => ExecStore(cfg, m, false, rs2, rs1, imm)
    case Sd(rs2, rs1, imm) => ExecStore(cfg, m, true, rs2, rs1, imm)
    case Fsw(rs2, rs1, imm) => ExecStoreFp(cfg, m, false, rs2, rs1, imm)
    case Fsd(rs2, rs1, imm) => ExecStoreFp(cfg, m, true, rs2, rs1, imm)
    case Csrrw(rd, rs1, csr) => ExecCsrrw(cfg, m, rd, rs1, csr)
    case Csrrs(rd, rs1, csr) => ExecCsrrs(cfg, m, rd, rs1, csr)
    case JumpAndLink(rd, imm) => if rd != 0 then Stopped(Elsewhere, m) else Next(m.(pc := Plus(m.pc, imm)))
    case Ebreak => Stopped(Breakpoint, m)
    case Other => Trap(m)
  }

  /** The offset of word `i` of the abstract code, which ends where the program buffer starts. */
  function AddressOf(i: nat): bv64
    requires i <= 5
  {
    if i == 0 then 0 else if i == 1 then 4 else if i == 2 then 8 else if i == 3 then 12 else if i == 4 then 16 else 20
  }

  /** Which word of the abstract code `pc` points at; 5 for the program buffer, 6 for elsewhere. */
  function IndexOf(pc: bv64): (i: nat)
    ensures i <= 6
  {
    if pc == 0 then 0
    else if pc == 4 then 1
    else if pc == 8 then 2
    else if pc == 12 then 3
    else if pc == 16 then 4
    else if pc == 20 then 5
    else 6
  }

  /** The hart fetches, decodes and executes one instruction of the abstract code. */
  function Step(cfg: Config, code: seq<bv8>, m: Machine): Outcome
    requires |code| == 20
  {
    var i := IndexOf(m.pc);
    if i == 5 then Stopped(AtProgbuf, m)
    else if i == 6 then Stopped(Elsewhere, m)
    else Exec(cfg, m, Decode(SignExtend32(Read32(code, i))))
  }

  function Run(cfg: Config, code: seq<bv8>, m: Machine, fuel: nat): Outcome
    requires |code| == 20
    decreases fuel
  {
    if fuel == 0 then Next(m)
    else match Step(cfg, code, m)
      case Next(m') => Run(cfg, code, m', fuel - 1)
      case stop => stop
  }

  // ---------------------------------------------------------------------------------------
  // The request, stated without instructions

  /** The data words as a transfer of the given size delivers them. */
  function Argument(m: Machine, size: bv32): bv64 {
    if size == 2 then SignExtend32(DataWord(m)) else DataDouble(m)
  }

  function Deliver(m: Machine, size: bv32, v: bv64): Machine {
    if size == 2 then SetDataWord(m, Low(v)) else SetDataDouble(m, v)
  }

  /** A transfer of 64 bits on a 32-bit hart, which traps at its load or store. */
  predicate TooWide(cfg: Config, size: bv32) { size == 3 && !cfg.rv64 }

  function GprRequest(cfg: Config, m: Machine, size: bv32, write: bool, r: bv64): Outcome {
    if TooWide(cfg, size) then Trap(m)
    else if write then Next(SetX(m, r, Argument(m, size)))
    else Next(Deliver(m, size, X(m, r)))
  }

  function FprRequest(cfg: Config, m: Machine, size: bv32, write: bool, r: bv64): Outcome {
    if !FpOn(m) || !(if size == 2 then cfg.hasF else cfg.hasD) || N(r) !in m.f then Trap(m)
    else if write then Next(SetF(cfg, m, r, if size == 2 then Boxed32(DataWord(m)) else Boxed64(DataDouble(m))))
    else Next(Deliver(m, size, m.f[N(r)].lo))
  }

  /** `dscratch` always ends up holding `s0`, unless it is itself the target of the write. */
  function CsrRequest(cfg: Config, m: Machine, size: bv32, write: bool, c: bv64): Outcome {
    var saved := m.(csr := m.csr[N(DSCRATCH) := X(m, 8)]);
    if write then
      var v := Argument(m, size);
      if TooWide(cfg, size) then Trap(saved)
      else if !CanWrite(m, c) then Trap(saved.(x := m.x[N(8) := v]))
      else if c == DSCRATCH then Next(m.(csr := m.csr[N(DSCRATCH) := v], x := m.x[N(8) := Narrow(cfg, v)]))
      else Next(m.(csr := m.csr[N(DSCRATCH) := X(m, 8)][N(c) := cfg.legal(c, v)]))
    else
      if N(c) !in m.csr then Trap(saved)
      else
        var v := if c == DSCRATCH then X(m, 8) else Narrow(cfg, m.csr[N(c)]);
        if TooWide(cfg, size) then Trap(saved.(x := m.x[N(8) := v]))
        else Next(Deliver(saved, size, v))
  }

  function Request(cfg: Config, m: Machine, command: bv32, target: Target): Outcome {
    var size, write := Size(command), Writes(command);
    match target
    case GprTarget(r) => GprRequest(cfg, m, size, write, r as bv64)
    case FprTarget(r) => FprRequest(cfg, m, size, write, r as bv64)
    case CsrTarget(c) => CsrRequest(cfg, m, size, write, c as bv64)
    case _ => Next(m)
  }

  /** A completed request is followed by `ebreak` or by the first word of the program buffer. */
  function WithTail(o: Outcome, command: bv32): Outcome {
    match o
    case Next(m) => Stopped(if PostExec(command) then AtProgbuf else Breakpoint, m)
    case stop => stop
  }

  function NoPc(o: Outcome): Outcome {
    match o
    case Next(m) => Next(m.(pc := 0))
    case Stopped(why, m) => Stopped(why, m.(pc := 0))
  }

  // ---------------------------------------------------------------------------------------
  // The compiled code carries out the request

  lemma IndexOfAddress(i: nat)
    requires i <= 5
    ensures IndexOf(AddressOf(i)) == i
  {
    if i == 0 {
    } else if i == 1 {
    } else if i == 2 {
    } else if i == 3 {
    } else if i == 4 {
    }
  }

  lemma NextAddress(i: nat)
    requires i < 5
    ensures Plus(AddressOf(i), 4) == AddressOf(i + 1)
  {
    if i == 0 {
    } else if i == 1 {
    } else if i == 2 {
    } else if i == 3 {
    } else if i == 4 {
    }
  }

  lemma RunStep(cfg: Config, code: seq<bv8>, m: Machine, fuel: nat, i: nat, w: bv32)
    requires |code| == 20 && i < 5 && fuel > 0 && m.pc == AddressOf(i) && Read32(code, i) == w
    ensures Run(cfg, code, m, fuel) ==
      match Exec(cfg, m, Decode(SignExtend32(w)))
      case Next(m') => Run(cfg, code, m', fuel - 1)
      case stop => stop
  {
    hide AddressOf, IndexOf, Exec, Decode, SignExtend32, Read32;
    IndexOfAddress(i);
  }

  lemma ProgbufOffset(i: nat)
    requires i <= 4
    ensures ToProgbuf(i) & 1 == 0
    ensures Plus(AddressOf(i), SignExtend21(ToProgbuf(i))) == AddressOf(5)
  {
    if i == 0 {
    } else if i == 1 {
    } else if i == 2 {
    } else if i == 3 {
    } else {
    }
  }

  lemma RunBreak(cfg: Config, code: seq<bv8>, m: Machine, fuel: nat, i: nat)
    requires |code| == 20 && i <= 4 && fuel > 0 && m.pc == AddressOf(i) && Read32(code, i) == MATCH_EBREAK
    ensures Run(cfg, code, m, fuel) == Stopped(Breakpoint, m)
  {
    hide *;
    RunStep(cfg, code, m, fuel, i, MATCH_EBREAK);
    DecodeEbreak();
    ExecBreak(cfg, m);
  }

  lemma ExecBreak(cfg: Config, m: Machine)
    ensures Exec(cfg, m, Ebreak) == Stopped(Breakpoint, m)
  {
  }

  lemma RunJump(cfg: Config, code: seq<bv8>, m: Machine, fuel: nat, i: nat)
    requires |code| == 20 && i <= 4 && fuel >= 2 && m.pc == AddressOf(i) && Read32(code, i) == Jal(0, ToProgbuf(i))
    ensures Run(cfg, code, m, fuel) == Stopped(AtProgbuf, m.(pc := AddressOf(5)))
  {
    hide *;
    ProgbufOffset(i);
    RunStep(cfg, code, m, fuel, i, Jal(0, ToProgbuf(i)));
    DecodeJal(0, ToProgbuf(i));
    ExecJump(cfg, m, SignExtend21(ToProgbuf(i)));
    RunArrived(cfg, code, m.(pc := AddressOf(5)), fuel - 1);
  }

  lemma ExecJump(cfg: Config, m: Machine, imm: bv64)
    ensures Exec(cfg, m, JumpAndLink(0, imm)) == Next(m.(pc := Plus(m.pc, imm)))
  {
    hide Plus;
  }

  lemma RunArrived(cfg: Config, code: seq<bv8>, m: Machine, fuel: nat)
    requires |code| == 20 && fuel > 0 && m.pc == AddressOf(5)
    ensures Run(cfg, code, m, fuel) == Stopped(AtProgbuf, m)
  {
    hide Exec, Decode, SignExtend32, Read32, AddressOf, IndexOf;
    IndexOfAddress(5);
  }

  /** The program ends in `ebreak`, or by landing on the first word of the program buffer. */
  lemma RunTail(cfg: Config, code: seq<bv8>, m: Machine, fuel: nat, i: nat, command: bv32)
    requires |code| == 20 && i <= 4 && fuel >= 2 && m.pc == AddressOf(i)
    requires Read32(code, i) == if PostExec(command) then Jal(0, ToProgbuf(i)) else MATCH_EBREAK
    ensures NoPc(Run(cfg, code, m, fuel)) == NoPc(Stopped(if PostExec(command) then AtProgbuf else Breakpoint, m))
  {
    hide AddressOf, Run, Read32, ToProgbuf, Jal, PostExec;
    if PostExec(command) { RunJump(cfg, code, m, fuel, i); } else { RunBreak(cfg, code, m, fuel, i); }
  }

  /** What one instruction does, as an outcome that has moved on to the next word. */
  function Advance(o: Outcome): Outcome {
    match o
    case Next(m) => Next(m.(pc := Plus(m.pc, 4)))
    case stop => stop
  }

  lemma DataAddress()
    ensures Plus(0, SignExtend12(DEBUG_DATA_START)) == 0x380
  {
  }

  lemma LwRequest(cfg: Config, m: Machine, r: bv32)
    requires Ready(cfg, m) && r < 32
    ensures Exec(cfg, m, Decode(SignExtend32(Load(MATCH_LW, r, 0, DEBUG_DATA_START))))
         == Advance(GprRequest(cfg, m, 2, true, r as bv64))
  {
    hide Plus, Decode, SignExtend32, SignExtend12, DataWord, DataDouble, Load, Deliver, Narrow, FpOn;
    DataAddress();
    DecodeLw(r, DEBUG_DATA_START);
  }

  lemma LdRequest(cfg: Config, m: Machine, r: bv32)
    requires Ready(cfg, m) && r < 32
    ensures Exec(cfg, m, Decode(SignExtend32(Load(MATCH_LD, r, 0, DEBUG_DATA_START))))
         == Advance(GprRequest(cfg, m, 3, true, r as bv64))
  {
    hide Plus, Decode, SignExtend32, SignExtend12, DataWord, DataDouble, Load, Narrow, FpOn, Boxed32, Boxed64, SetF,
        Low, SetDataWord, SetDataDouble;
    DataAddress();
    DecodeLd(r, DEBUG_DATA_START);
  }

  lemma SwRequest(cfg: Config, m: Machine, r: bv32)
    requires Ready(cfg, m) && r < 32
    ensures Exec(cfg, m, Decode(SignExtend32(Store(MATCH_SW, r, 0, DEBUG_DATA_START))))
         == Advance(GprRequest(cfg, m, 2, false, r as bv64))
  {
    hide Plus, Decode, SignExtend32, SignExtend12, DataWord, DataDouble, Store, Narrow, FpOn, Boxed32, Boxed64, SetF,
        Low, SetDataWord, SetDataDouble;
    DataAddress();
    DecodeSw(r, DEBUG_DATA_START);
  }

  lemma SdRequest(cfg: Config, m: Machine, r: bv32)
    requires Ready(cfg, m) && r < 32
    ensures Exec(cfg, m, Decode(SignExtend32(Store(MATCH_SD, r, 0, DEBUG_DATA_START))))
         == Advance(GprRequest(cfg, m, 3, false, r as bv64))
  {
    hide Plus, Decode, SignExtend32, SignExtend12, DataWord, DataDouble, Store, Narrow, FpOn, Boxed32, Boxed64, SetF,
        Low, SetDataWord, SetDataDouble;
    DataAddress();
    DecodeSd(r, DEBUG_DATA_START);
  }

  lemma FlwRequest(cfg: Config, m: Machine, r: bv32)
    requires Ready(cfg, m) && r < 32
    ensures Exec(cfg, m, Decode(SignExtend32(Load(MATCH_FLW, r, 0, DEBUG_DATA_START))))
         == Advance(FprRequest(cfg, m, 2, true, r as bv64))
  {
    hide Plus, Decode, SignExtend32, SignExtend12, DataWord, DataDouble, Load, Narrow, FpOn, Boxed32, Boxed64, SetF,
        Low, SetDataWord, SetDataDouble;
    DataAddress(); FprExists(cfg, m, r);
    DecodeFlw(r, DEBUG_DATA_START);
  }

  lemma FldRequest(cfg: Config, m: Machine, r: bv32)
    requires Ready(cfg, m) && r < 32
    ensures Exec(cfg, m, Decode(SignExtend32(Load(MATCH_FLD, r, 0, DEBUG_DATA_START))))
         == Advance(FprRequest(cfg, m, 3, true, r as bv64))
  {
    hide Plus, Decode, SignExtend32, SignExtend12, DataWord, DataDouble, Load, Narrow, FpOn, Boxed32, Boxed64, SetF,
        Low, SetDataWord, SetDataDouble;
    DataAddress(); FprExists(cfg, m, r);
    DecodeFld(r, DEBUG_DATA_START);
  }

  lemma FswRequest(cfg: Config, m: Machine, r: bv32)
    requires Ready(cfg, m) && r < 32
    ensures Exec(cfg, m, Decode(SignExtend32(StoreFp(MATCH_FSW, r, 0, DEBUG_DATA_START))))
         == Advance(FprRequest(cfg, m, 2, false, r as bv64))
  {
    hide Plus, Decode, SignExtend32, SignExtend12, DataWord, DataDouble, StoreFp, Narrow, FpOn, Boxed32, Boxed64,
        SetF, Low, SetDataWord, SetDataDouble;
    DataAddress(); FprExists(cfg, m, r);
    DecodeFsw(r, DEBUG_DATA_START);
  }

  lemma FsdRequest(cfg: Config, m: Machine, r: bv32)
    requires Ready(cfg, m) && r < 32
    ensures Exec(cfg, m, Decode(SignExtend32(StoreFp(MATCH_FSD, r, 0, DEBUG_DATA_START))))
         == Advance(FprRequest(cfg, m, 3, false, r as bv64))
  {
    hide Plus, Decode, SignExtend32, SignExtend12, DataWord, DataDouble, StoreFp, Narrow, FpOn, Boxed32, Boxed64,
        SetF, Low, SetDataWord, SetDataDouble;
    DataAddress(); FprExists(cfg, m, r);
    DecodeFsd(r, DEBUG_DATA_START);
  }

  lemma FprExists(cfg: Config, m: Machine, r: bv32)
    requires Ready(cfg, m) && r < 32
    ensures N(r as bv64) in m.f
  {
  }

  /** Every load or store that the compiler emits carries out the matching request. */
  lemma LoadRequest(cfg: Config, m: Machine, size: bv32, r: bv32)
    requires Ready(cfg, m) && r < 32 && SizeOk(size)
    ensures Exec(cfg, m, Decode(SignExtend32(LoadData(size, r)))) == Advance(GprRequest(cfg, m, size, true, r as bv64))
  {
    hide Exec, Decode, SignExtend32, GprRequest, Load, Ready;
    if size == 2 { LwRequest(cfg, m, r); } else { LdRequest(cfg, m, r); }
  }

  lemma StoreRequest(cfg: Config, m: Machine, size: bv32, r: bv32)
    requires Ready(cfg, m) && r < 32 && SizeOk(size)
    ensures Exec(cfg, m, Decode(SignExtend32(StoreData(size, r))))
         == Advance(GprRequest(cfg, m, size, false, r as bv64))
  {
    hide Exec, Decode, SignExtend32, GprRequest, Store, Ready;
    if size == 2 { SwRequest(cfg, m, r); } else { SdRequest(cfg, m, r); }
  }

  lemma LoadFpRequest(cfg: Config, m: Machine, size: bv32, r: bv32)
    requires Ready(cfg, m) && r < 32 && SizeOk(size)
    ensures Exec(cfg, m, Decode(SignExtend32(LoadDataFp(size, r))))
         == Advance(FprRequest(cfg, m, size, true, r as bv64))
  {
    hide Exec, Decode, SignExtend32, FprRequest, Load, Ready;
    if size == 2 { FlwRequest(cfg, m, r); } else { FldRequest(cfg, m, r); }
  }

  lemma StoreFpRequest(cfg: Config, m: Machine, size: bv32, r: bv32)
    requires Ready(cfg, m) && r < 32 && SizeOk(size)
    ensures Exec(cfg, m, Decode(SignExtend32(StoreDataFp(size, r))))
         == Advance(FprRequest(cfg, m, size, false, r as bv64))
  {
    hide Exec, Decode, SignExtend32, FprRequest, StoreFp, Ready;
    if size == 2 { FswRequest(cfg, m, r); } else { FsdRequest(cfg, m, r); }
  }

  /** One instruction that carries out a request, then the tail. */
  lemma RunOne(cfg: Config, code: seq<bv8>, m: Machine, w: bv32, command: bv32, o: Outcome)
    requires |code| == 20 && m.pc == AddressOf(0) && Read32(code, 0) == w
    requires Exec(cfg, m, Decode(SignExtend32(w))) == Advance(o) && (o.Next? ==> o.m.pc == m.pc)
    requires Read32(code, 1) == if PostExec(command) then Jal(0, ToProgbuf(1)) else MATCH_EBREAK
    ensures NoPc(Run(cfg, code, m, 6)) == NoPc(WithTail(o, command))
  {
    hide AddressOf, Run, Read32, ToProgbuf, Jal, PostExec, Exec, Decode, SignExtend32, Plus;
    RunStep(cfg, code, m, 6, 0, w);
    match o
    case Next(m') =>
      NextAddress(0);
      RunTail(cfg, code, m'.(pc := Plus(m.pc, 4)), 5, 1, command);
    case stop =>
  }

  lemma ExecCsrw(cfg: Config, m: Machine, c: bv32)
    requires c < 0x1000
    ensures Exec(cfg, m, Decode(SignExtend32(Csrw(S0, c))))
         == Advance(if CanWrite(m, c as bv64) then Next(SetCsr(cfg, m, c as bv64, X(m, 8))) else Trap(m))
  {
    hide Plus, Decode, SignExtend32, Csrw, CanWrite, SetCsr, Narrow, X;
    DecodeCsrw(S0, c);
    CanWriteHas(m, c as bv64);
  }

  lemma CanWriteHas(m: Machine, c: bv64)
    ensures CanWrite(m, c) ==> N(c) in m.csr
  {
  }

  lemma ExecCsrr(cfg: Config, m: Machine, c: bv32)
    requires c < 0x1000
    ensures Exec(cfg, m, Decode(SignExtend32(Csrr(S0, c))))
         == Advance(if N(c as bv64) in m.csr then Next(SetX(m, 8, Narrow(cfg, m.csr[N(c as bv64)]))) else Trap(m))
  {
    hide Plus, Decode, SignExtend32, Csrr, SetCsr, Narrow, SetX, ReadOnly;
    DecodeCsrr(S0, c);
  }

  /** One step through the abstract code, `o` being what the instruction does besides moving on. */
  lemma RunOn(cfg: Config, code: seq<bv8>, m: Machine, fuel: nat, i: nat, w: bv32, o: Outcome)
    requires |code| == 20 && i < 5 && fuel > 0 && m.pc == AddressOf(i) && Read32(code, i) == w
    requires Exec(cfg, m, Decode(SignExtend32(w))) == Advance(o) && (o.Next? ==> o.m.pc == m.pc)
    ensures Run(cfg, code, m, fuel) ==
      match o
      case Next(m') => Run(cfg, code, m'.(pc := AddressOf(i + 1)), fuel - 1)
      case stop => stop
  {
    hide AddressOf, Run, Read32, Exec, Decode, SignExtend32, Plus;
    RunStep(cfg, code, m, fuel, i, w);
    NextAddress(i);
  }

  /** The words of a CSR access of either kind. */
  ghost predicate CsrCode(code: seq<bv8>, command: bv32, middle: seq<bv32>)
    requires |code| == 20 && |middle| == 2
  {
    && Read32(code, 0) == Csrw(S0, CSR_DSCRATCH)
    && Read32(code, 1) == middle[0] && Read32(code, 2) == middle[1]
    && Read32(code, 3) == Csrr(S0, CSR_DSCRATCH)
    && Read32(code, 4) == if PostExec(command) then Jal(0, ToProgbuf(4)) else MATCH_EBREAK
  }

  /** `csrw dscratch, s0` comes first. */
  lemma RunSave(cfg: Config, code: seq<bv8>, m: Machine)
    requires |code| == 20 && Ready(cfg, m) && m.pc == AddressOf(0) && Read32(code, 0) == Csrw(S0, CSR_DSCRATCH)
    ensures Run(cfg, code, m, 6) == Run(cfg, code, m.(csr := m.csr[N(DSCRATCH) := m.x[N(8)]], pc := AddressOf(1)), 5)
  {
    hide AddressOf, Run, Read32, Exec, Decode, SignExtend32, Plus, Csrw;
    ExecCsrw(cfg, m, CSR_DSCRATCH);
    RunOn(cfg, code, m, 6, 0, Csrw(S0, CSR_DSCRATCH), Next(SetCsr(cfg, m, DSCRATCH, X(m, 8))));
  }

  /** `csrr s0, dscratch` and the tail come last. */
  lemma RunRestore(cfg: Config, code: seq<bv8>, m: Machine, command: bv32)
    requires |code| == 20 && m.pc == AddressOf(3) && Read32(code, 3) == Csrr(S0, CSR_DSCRATCH) && N(DSCRATCH) in m.csr
    requires Read32(code, 4) == if PostExec(command) then Jal(0, ToProgbuf(4)) else MATCH_EBREAK
    ensures NoPc(Run(cfg, code, m, 3))
         == NoPc(WithTail(Next(m.(x := m.x[N(8) := Narrow(cfg, m.csr[N(DSCRATCH)])])), command))
  {
    hide AddressOf, Run, Read32, Exec, Decode, SignExtend32, Plus, Csrr, Narrow, PostExec, ToProgbuf, Jal;
    ExecCsrr(cfg, m, CSR_DSCRATCH);
    var m' := SetX(m, 8, Narrow(cfg, m.csr[N(DSCRATCH)]));
    RunOn(cfg, code, m, 3, 3, Csrr(S0, CSR_DSCRATCH), Next(m'));
    RunTail(cfg, code, m'.(pc := AddressOf(4)), 2, 4, command);
  }

  /** The middle of a CSR write: fetch the argument into `s0`, then write the CSR. */
  lemma RunCsrWrite(cfg: Config, code: seq<bv8>, m: Machine, size: bv32, c: bv32)
    requires |code| == 20 && Ready(cfg, m) && m.pc == AddressOf(1) && c < 0x1000 && SizeOk(size)
    requires Read32(code, 1) == LoadData(size, S0) && Read32(code, 2) == Csrw(S0, c)
    ensures var v, c64 := Argument(m, size), c as bv64;
            Run(cfg, code, m, 5) ==
              if TooWide(cfg, size) then Trap(m)
              else if !CanWrite(m, c64) then Trap(m.(pc := AddressOf(2), x := m.x[N(8) := v]))
              else Run(cfg, code, SetCsr(cfg, m, c64, v).(pc := AddressOf(3), x := m.x[N(8) := v]), 3)
  {
    hide AddressOf, Run, Read32, Exec, Decode, SignExtend32, Plus, Csrw, LoadData, SetCsr, Argument, CanWrite, Narrow;
    LoadRequest(cfg, m, size, S0);
    RunOn(cfg, code, m, 5, 1, LoadData(size, S0), GprRequest(cfg, m, size, true, 8));
    if !TooWide(cfg, size) {
      var m2 := m.(x := m.x[N(8) := Argument(m, size)], pc := AddressOf(2));
      ExecCsrw(cfg, m2, c);
      assert X(m2, 8) == Argument(m, size);
      SameCsrs(cfg, m, m2, c as bv64, Argument(m, size));
      RunOn(cfg, code, m2, 4, 2, Csrw(S0, c),
            if CanWrite(m2, c as bv64) then Next(SetCsr(cfg, m2, c as bv64, Argument(m, size))) else Trap(m2));
      SetCsrFrame(cfg, m, m2, c as bv64, Argument(m, size));
    }
  }

  lemma ReadyAgain(cfg: Config, m: Machine, m2: Machine)
    requires Ready(cfg, m) && N(8) in m2.x && Narrow(cfg, m2.x[N(8)]) == m2.x[N(8)]
    requires m2 == m.(x := m.x[N(8) := m2.x[N(8)]], pc := m2.pc)
    ensures Ready(cfg, m2)
  {
    hide Narrow;
  }

  lemma SameCsrs(cfg: Config, m: Machine, m2: Machine, c: bv64, v: bv64)
    requires m2.csr == m.csr
    ensures CanWrite(m2, c) == CanWrite(m, c)
    ensures SetCsr(cfg, m2, c, v).pc == m2.pc
  {
  }

  lemma SetCsrFrame(cfg: Config, m: Machine, m2: Machine, c: bv64, v: bv64)
    requires m2 == m.(x := m2.x, pc := m2.pc)
    ensures SetCsr(cfg, m2, c, v).(pc := AddressOf(3)) == SetCsr(cfg, m, c, v).(pc := AddressOf(3), x := m2.x)
  {
  }

  /** The middle of a CSR read: read the CSR into `s0`, then store the result. */
  lemma RunCsrRead(cfg: Config, code: seq<bv8>, m: Machine, size: bv32, c: bv32)
    requires |code| == 20 && Ready(cfg, m) && m.pc == AddressOf(1) && c < 0x1000 && SizeOk(size)
    requires Read32(code, 1) == Csrr(S0, c) && Read32(code, 2) == StoreData(size, S0)
    ensures var c64 := c as bv64;
            Run(cfg, code, m, 5) ==
              if N(c64) !in m.csr then Trap(m)
              else
                var v := Narrow(cfg, m.csr[N(c64)]);
                if TooWide(cfg, size) then Trap(m.(pc := AddressOf(2), x := m.x[N(8) := v]))
                else Run(cfg, code, Deliver(m, size, v).(pc := AddressOf(3), x := m.x[N(8) := v]), 3)
  {
    hide AddressOf, Run, Read32, Exec, Decode, SignExtend32, Plus, Csrr, StoreData, Narrow, Deliver, Ready;
    ExecCsrr(cfg, m, c);
    var c64 := c as bv64;
    if N(c64) !in m.csr {
      RunOn(cfg, code, m, 5, 1, Csrr(S0, c), Trap(m));
    } else {
      var v := Narrow(cfg, m.csr[N(c64)]);
      RunOn(cfg, code, m, 5, 1, Csrr(S0, c), Next(SetX(m, 8, v)));
      var m2 := m.(x := m.x[N(8) := v], pc := AddressOf(2));
      NarrowTwice(cfg, m.csr[N(c64)]);
      ReadyAgain(cfg, m, m2);
      assert X(m2, 8) == v;
      StoreRequest(cfg, m2, size, S0);
      DeliverFrame(m, m2, size, v);
      RunOn(cfg, code, m2, 4, 2, StoreData(size, S0), GprRequest(cfg, m2, size, false, 8));
    }
  }

  lemma DeliverFrame(m: Machine, m2: Machine, size: bv32, v: bv64)
    requires m2 == m.(x := m2.x, pc := m2.pc)
    ensures Deliver(m2, size, v).(pc := AddressOf(3)) == Deliver(m, size, v).(pc := AddressOf(3), x := m2.x)
    ensures Deliver(m2, size, v).pc == m2.pc
  {
  }

  lemma LowOfPositive(w: bv32)
    requires w & 0x8000_0000 == 0
    ensures Low(SignExtend32(w)) == w
  {
  }

  lemma LowOfNegative(w: bv32)
    requires w & 0x8000_0000 != 0
    ensures Low(SignExtend32(w)) == w
  {
  }

  lemma LowOfExtended(w: bv32)
    ensures Low(SignExtend32(w)) == w
  {
    hide *;
    if w & 0x8000_0000 == 0 { LowOfPositive(w); } else { LowOfNegative(w); }
  }

  lemma NarrowTwice(cfg: Config, v: bv64)
    ensures Narrow(cfg, Narrow(cfg, v)) == Narrow(cfg, v)
  {
    hide Low, SignExtend32;
    LowOfExtended(Low(v));
  }

  lemma HasSave(cfg: Config, m: Machine)
    requires Ready(cfg, m)
    ensures N(8) in m.x && N(DSCRATCH) in m.csr
  {
  }

  lemma Saved(cfg: Config, m: Machine, m1: Machine, size: bv32, c: bv64)
    requires Ready(cfg, m) && m1 == m.(csr := m.csr[N(DSCRATCH) := m.x[N(8)]], pc := m1.pc)
    ensures Ready(cfg, m1) && Argument(m1, size) == Argument(m, size)
    ensures CanWrite(m1, c) == CanWrite(m, c) && X(m, 8) == m.x[N(8)] && N(DSCRATCH) in m.csr && N(8) in m.x
  {
    hide Narrow, Read32, Wide, SignExtend32, ReadOnly;
  }

  lemma AfterWrite(cfg: Config, m: Machine, m1: Machine, c: bv64, v: bv64)
    requires Ready(cfg, m) && m1 == m.(csr := m.csr[N(DSCRATCH) := m.x[N(8)]], pc := m1.pc)
    ensures var m3 := SetCsr(cfg, m1, c, v).(pc := AddressOf(3), x := m.x[N(8) := v]);
            && N(DSCRATCH) in m3.csr
            && m3.(x := m3.x[N(8) := Narrow(cfg, m3.csr[N(DSCRATCH)])], pc := m.pc) ==
                 if c == DSCRATCH then m.(csr := m.csr[N(DSCRATCH) := v], x := m.x[N(8) := Narrow(cfg, v)])
                 else m.(csr := m.csr[N(DSCRATCH) := X(m, 8)][N(c) := cfg.legal(c, v)])
  {
    hide Narrow, AddressOf;
    var m3 := SetCsr(cfg, m1, c, v).(pc := AddressOf(3), x := m.x[N(8) := v]);
    if c != DSCRATCH {
      assert m3.csr[N(DSCRATCH)] == m.x[N(8)];
      assert m.x[N(8) := v][N(8) := m.x[N(8)]] == m.x;
    } else {
      assert m.csr[N(DSCRATCH) := m.x[N(8)]][N(DSCRATCH) := v] == m.csr[N(DSCRATCH) := v];
      assert m.x[N(8) := v][N(8) := Narrow(cfg, v)] == m.x[N(8) := Narrow(cfg, v)];
    }
  }

  lemma CsrWriteRuns(cfg: Config, code: seq<bv8>, m: Machine, command: bv32, size: bv32, c: bv32)
    requires |code| == 20 && Ready(cfg, m) && m.pc == AddressOf(0) && c < 0x1000 && SizeOk(size)
    requires CsrCode(code, command, [LoadData(size, S0), Csrw(S0, c)])
    ensures NoPc(Run(cfg, code, m, 6)) == NoPc(WithTail(CsrRequest(cfg, m, size, true, c as bv64), command))
  {
    hide Ready, AddressOf, Run, Read32, Plus, Csrw, Csrr, LoadData, SetCsr, Argument, CanWrite, Narrow, PostExec,
        ToProgbuf, Jal, X;
    HasSave(cfg, m);
    RunSave(cfg, code, m);
    var m1, c64 := m.(csr := m.csr[N(DSCRATCH) := m.x[N(8)]], pc := AddressOf(1)), c as bv64;
    Saved(cfg, m, m1, size, c64);
    RunCsrWrite(cfg, code, m1, size, c);
    if !TooWide(cfg, size) && CanWrite(m, c64) {
      var v := Argument(m, size);
      AfterWrite(cfg, m, m1, c64, v);
      RunRestore(cfg, code, SetCsr(cfg, m1, c64, v).(pc := AddressOf(3), x := m.x[N(8) := v]), command);
    }
  }

  lemma AfterRead(cfg: Config, m: Machine, m1: Machine, size: bv32, v: bv64)
    requires Ready(cfg, m) && m1 == m.(csr := m.csr[N(DSCRATCH) := m.x[N(8)]], pc := m1.pc)
    ensures var m3 := Deliver(m1, size, v).(pc := AddressOf(3), x := m.x[N(8) := v]);
            && N(DSCRATCH) in m3.csr
            && m3.(x := m3.x[N(8) := Narrow(cfg, m3.csr[N(DSCRATCH)])], pc := m.pc)
                 == Deliver(m.(csr := m.csr[N(DSCRATCH) := X(m, 8)]), size, v)
  {
    hide Narrow, AddressOf, SetDataWord, SetDataDouble;
    var m3 := Deliver(m1, size, v).(pc := AddressOf(3), x := m.x[N(8) := v]);
    DeliverRegisters(m1, size, v);
    DeliverSame(m1, m.(csr := m.csr[N(DSCRATCH) := X(m, 8)]), size, v);
    assert m3.csr[N(DSCRATCH)] == m.x[N(8)];
    assert m.x[N(8) := v][N(8) := m.x[N(8)]] == m.x;
  }

  lemma DeliverRegisters(m: Machine, size: bv32, v: bv64)
    ensures var r := Deliver(m, size, v); r == m.(data := r.data)
  {
  }

  lemma DeliverSame(m: Machine, m2: Machine, size: bv32, v: bv64)
    requires m.data == m2.data
    ensures Deliver(m2, size, v) == m2.(data := Deliver(m, size, v).data)
  {
  }

  lemma CsrReadRuns(cfg: Config, code: seq<bv8>, m: Machine, command: bv32, size: bv32, c: bv32)
    requires |code| == 20 && Ready(cfg, m) && m.pc == AddressOf(0) && c < 0x1000 && SizeOk(size)
    requires CsrCode(code, command, [Csrr(S0, c), StoreData(size, S0)])
    ensures NoPc(Run(cfg, code, m, 6)) == NoPc(WithTail(CsrRequest(cfg, m, size, false, c as bv64), command))
  {
    hide Ready, AddressOf, Run, Read32, Plus, Csrw, Csrr, StoreData, Deliver, CanWrite, Narrow, PostExec, ToProgbuf,
        Jal, X;
    HasSave(cfg, m);
    RunSave(cfg, code, m);
    var m1, c64 := m.(csr := m.csr[N(DSCRATCH) := m.x[N(8)]], pc := AddressOf(1)), c as bv64;
    Saved(cfg, m, m1, size, c64);
    RunCsrRead(cfg, code, m1, size, c);
    if N(c64) in m.csr {
      SavedRead(cfg, m, m1, c64);
      if !TooWide(cfg, size) { ReadEnds(cfg, code, m, m1, command, size, Narrow(cfg, m1.csr[N(c64)])); }
    }
  }

  lemma ReadEnds(cfg: Config, code: seq<bv8>, m: Machine, m1: Machine, command: bv32, size: bv32, v: bv64)
    requires |code| == 20 && Ready(cfg, m) && m1 == m.(csr := m.csr[N(DSCRATCH) := m.x[N(8)]], pc := m1.pc)
    requires Read32(code, 3) == Csrr(S0, CSR_DSCRATCH)
    requires Read32(code, 4) == if PostExec(command) then Jal(0, ToProgbuf(4)) else MATCH_EBREAK
    ensures NoPc(Run(cfg, code, Deliver(m1, size, v).(pc := AddressOf(3), x := m.x[N(8) := v]), 3))
         == NoPc(WithTail(Next(Deliver(m.(csr := m.csr[N(DSCRATCH) := X(m, 8)]), size, v)), command))
  {
    hide Ready, AddressOf, Run, Read32, Csrr, Deliver, Narrow, PostExec, ToProgbuf, Jal, X;
    AfterRead(cfg, m, m1, size, v);
    RunRestore(cfg, code, Deliver(m1, size, v).(pc := AddressOf(3), x := m.x[N(8) := v]), command);
  }

  lemma SavedRead(cfg: Config, m: Machine, m1: Machine, c: bv64)
    requires Ready(cfg, m) && m1 == m.(csr := m.csr[N(DSCRATCH) := m.x[N(8)]], pc := m1.pc) && N(c) in m.csr
    ensures Narrow(cfg, m1.csr[N(c)]) == if c == DSCRATCH then X(m, 8) else Narrow(cfg, m.csr[N(c)])
  {
    hide Narrow;
  }

  /** The words have been written to the start of the abstract code. */
  ghost predicate Coded(code: seq<bv8>, words: seq<bv32>) {
    |code| == 20 && |words| <= 5 && forall i :: 0 <= i < |words| ==> Read32(code, i) == words[i]
  }

  lemma WrittenIsCoded(old_: seq<bv8>, words: seq<bv32>)
    requires |old_| == 20 && |words| <= 5
    ensures Coded(WriteAll(old_, words), words)
  {
    hide WriteAll, Read32;
    forall i | 0 <= i < |words|
      ensures Read32(WriteAll(old_, words), i) == words[i]
    {
      ReadAll(old_, words, i);
    }
  }

  lemma GprBound(command: bv32, p: nat, r: bv32)
    requires TargetOf(command, p) == GprTarget(r)
    ensures r < 32
  {
  }

  lemma FprBound(command: bv32, p: nat, r: bv32)
    requires TargetOf(command, p) == FprTarget(r)
    ensures r < 32
  {
  }

  lemma CsrBound(command: bv32, p: nat, c: bv32)
    requires TargetOf(command, p) == CsrTarget(c)
    ensures c < 0x1000
  {
  }

  /** What it means for compiled code to be right. */
  ghost predicate Correct(cfg: Config, code: seq<bv8>, m: Machine, command: bv32, target: Target)
    requires |code| == 20
  {
    NoPc(Run(cfg, code, m, 6)) == NoPc(WithTail(Request(cfg, m, command, target), command))
  }

  function Tail(command: bv32, i: nat): bv32
    requires i <= 4
  {
    if PostExec(command) then Jal(0, ToProgbuf(i)) else MATCH_EBREAK
  }

  function GprWords(command: bv32, r: bv32): seq<bv32> {
    [if Writes(command) then LoadData(Size(command), r) else StoreData(Size(command), r), Tail(command, 1)]
  }

  function FprWords(command: bv32, r: bv32): seq<bv32> {
    [if Writes(command) then LoadDataFp(Size(command), r) else StoreDataFp(Size(command), r), Tail(command, 1)]
  }

  function CsrMiddle(command: bv32, c: bv32): seq<bv32> {
    if Writes(command) then [LoadData(Size(command), S0), Csrw(S0, c)] else [Csrr(S0, c), StoreData(Size(command), S0)]
  }

  function CsrWords(command: bv32, c: bv32): seq<bv32> {
    [Csrw(S0, CSR_DSCRATCH)] + CsrMiddle(command, c) + [Csrr(S0, CSR_DSCRATCH), Tail(command, 4)]
  }

  lemma NothingRight(cfg: Config, code: seq<bv8>, m: Machine, command: bv32)
    requires Coded(code, [Tail(command, 0)]) && m.pc == 0
    ensures Correct(cfg, code, m, command, Nothing)
  {
    hide Run, Read32, PostExec, ToProgbuf, Jal;
    assert Read32(code, 0) == [Tail(command, 0)][0];
    RunTail(cfg, code, m, 6, 0, command);
  }

  lemma GprRight(cfg: Config, code: seq<bv8>, m: Machine, command: bv32, r: bv32)
    requires Ready(cfg, m) && m.pc == 0 && r < 32 && SizeOk(Size(command))
    requires Coded(code, GprWords(command, r))
    ensures Correct(cfg, code, m, command, GprTarget(r))
  {
    hide Run, Read32, PostExec, ToProgbuf, Jal, LoadData, StoreData, Size, Writes, Exec, Decode, SignExtend32,
        SizeOk, Ready, WithTail, NoPc, GprRequest;
    var size := Size(command);
    var w := if Writes(command) then LoadData(size, r) else StoreData(size, r);
    assert Read32(code, 0) == [w, Tail(command, 1)][0] && Read32(code, 1) == [w, Tail(command, 1)][1];
    if Writes(command) { LoadRequest(cfg, m, size, r); } else { StoreRequest(cfg, m, size, r); }
    GprPc(cfg, m, size, Writes(command), r as bv64);
    RunOne(cfg, code, m, w, command, GprRequest(cfg, m, size, Writes(command), r as bv64));
  }

  lemma GprPc(cfg: Config, m: Machine, size: bv32, write: bool, r: bv64)
    ensures var o := GprRequest(cfg, m, size, write, r); o.Next? ==> o.m.pc == m.pc
  {
  }

  lemma FprRight(cfg: Config, code: seq<bv8>, m: Machine, command: bv32, r: bv32)
    requires Ready(cfg, m) && m.pc == 0 && r < 32 && SizeOk(Size(command))
    requires Coded(code, FprWords(command, r))
    ensures Correct(cfg, code, m, command, FprTarget(r))
  {
    hide Run, Read32, PostExec, ToProgbuf, Jal, LoadDataFp, StoreDataFp, Size, Writes, Exec, Decode, SignExtend32,
        SizeOk, Ready, WithTail, NoPc, FprRequest;
    var size := Size(command);
    var w := if Writes(command) then LoadDataFp(size, r) else StoreDataFp(size, r);
    assert Read32(code, 0) == [w, Tail(command, 1)][0] && Read32(code, 1) == [w, Tail(command, 1)][1];
    if Writes(command) { LoadFpRequest(cfg, m, size, r); } else { StoreFpRequest(cfg, m, size, r); }
    FprPc(cfg, m, size, Writes(command), r as bv64);
    RunOne(cfg, code, m, w, command, FprRequest(cfg, m, size, Writes(command), r as bv64));
  }

  lemma FprPc(cfg: Config, m: Machine, size: bv32, write: bool, r: bv64)
    ensures var o := FprRequest(cfg, m, size, write, r); o.Next? ==> o.m.pc == m.pc
  {
  }

  lemma CsrRight(cfg: Config, code: seq<bv8>, m: Machine, command: bv32, c: bv32)
    requires Ready(cfg, m) && m.pc == 0 && c < 0x1000 && SizeOk(Size(command))
    requires Coded(code, CsrWords(command, c))
    ensures Correct(cfg, code, m, command, CsrTarget(c))
  {
    hide Run, Read32, PostExec, ToProgbuf, Jal, LoadData, StoreData, Csrw, Csrr, Size, Writes, SizeOk, Ready,
        WithTail, NoPc, CsrRequest;
    CsrLayout(code, command, c);
    if Writes(command) {
      CsrWriteRuns(cfg, code, m, command, Size(command), c);
    } else {
      CsrReadRuns(cfg, code, m, command, Size(command), c);
    }
  }

  lemma CsrLayout(code: seq<bv8>, command: bv32, c: bv32)
    requires Coded(code, CsrWords(command, c))
    ensures CsrCode(code, command, CsrMiddle(command, c))
  {
    hide Read32, PostExec, ToProgbuf, Jal, LoadData, StoreData, Csrw, Csrr, Size, Writes;
    var words := CsrWords(command, c);
    assert Read32(code, 0) == words[0] && Read32(code, 1) == words[1] && Read32(code, 2) == words[2];
    assert Read32(code, 3) == words[3] && Read32(code, 4) == words[4];
  }

  /** The words that `Compile` emits, target by target. */
  lemma LaunchShape(command: bv32, p: nat)
    requires Compile(command, p).Launch?
    ensures var t, words := TargetOf(command, p), Compile(command, p).words;
      && !t.Unsupported? && !t.CustomTarget?
      && (t.Nothing? ==> words == [Tail(command, 0)])
      && (!t.Nothing? ==> SizeOk(Size(command)))
      && (t.GprTarget? ==> words == GprWords(command, t.r))
      && (t.FprTarget? ==> words == FprWords(command, t.r))
      && (t.CsrTarget? ==> words == CsrWords(command, t.c))
  {
    hide TargetOf, PostExec, ToProgbuf, Jal, LoadData, StoreData, LoadDataFp, StoreDataFp, Csrw, Csrr, Size, Writes,
        SizeOk;
  }

  /** The main result: whatever the old contents of `debug_abstract`, executing what was compiled
      carries out exactly the request. */
  lemma CompiledMeaning(cfg: Config, before: seq<bv8>, m: Machine, command: bv32, progbufsize: nat)
    requires |before| == 20 && Ready(cfg, m) && m.pc == 0 && Compile(command, progbufsize).Launch?
    ensures var words := Compile(command, progbufsize).words;
      && |words| <= 5
      && NoPc(Run(cfg, WriteAll(before, words), m, 6))
           == NoPc(WithTail(Request(cfg, m, command, TargetOf(command, progbufsize)), command))
  {
    var t, words := TargetOf(command, progbufsize), Compile(command, progbufsize).words;
    hide WriteAll, Run, Ready, NoPc, WithTail, Size, Writes, Tail, LoadData, StoreData, LoadDataFp, StoreDataFp,
         Csrw, Csrr, GprWords, FprWords, CsrWords, SizeOk, Compile, TargetOf, Request, Coded;
    FitsInFiveWords(command, progbufsize);
    WrittenIsCoded(before, words);
    LaunchShape(command, progbufsize);
    match t
    case Nothing => NothingRight(cfg, WriteAll(before, words), m, command);
    case GprTarget(r) => GprBound(command, progbufsize, r); GprRight(cfg, WriteAll(before, words), m, command, r);
    case FprTarget(r) => FprBound(command, progbufsize, r); FprRight(cfg, WriteAll(before, words), m, command, r);
    case CsrTarget(c) => CsrBound(command, progbufsize, c); CsrRight(cfg, WriteAll(before, words), m, command, c);
  }

  // ---------------------------------------------------------------------------------------
  // What an accepted command leaves alone, completed or trapped

  predicate Same(a: bv64, b: bv64) { a == b }

  ghost predicate Accepted(cfg: Config, before: seq<bv8>, m: Machine, command: bv32, progbufsize: nat) {
    |before| == 20 && Ready(cfg, m) && m.pc == 0 && Compile(command, progbufsize).Launch?
  }

  /** The machine once the compiled words have been executed. */
  ghost function After(cfg: Config, before: seq<bv8>, m: Machine, command: bv32, progbufsize: nat): Machine
    requires Accepted(cfg, before, m, command, progbufsize)
  {
    FitsInFiveWords(command, progbufsize);
    Run(cfg, WriteAll(before, Compile(command, progbufsize).words), m, 6).m
  }

  lemma AfterRequest(cfg: Config, before: seq<bv8>, m: Machine, command: bv32, progbufsize: nat)
    requires Accepted(cfg, before, m, command, progbufsize)
    ensures After(cfg, before, m, command, progbufsize).(pc := 0)
         == Request(cfg, m, command, TargetOf(command, progbufsize)).m.(pc := 0)
  {
    hide Ready, Run, Request, TargetOf, PostExec, WriteAll, Compile;
    CompiledMeaning(cfg, before, m, command, progbufsize);
  }

  /** What a CSR command leaves in `s0`. A write that loads its argument and then finds the CSR
      not writable traps with the argument in `s0`; a write of `dscratch` itself replaces the saved
      value; a read that traps at its store has the CSR's value there. */
  function S0After(cfg: Config, m: Machine, size: bv32, write: bool, c: bv64): bv64 {
    if write && !TooWide(cfg, size) && !CanWrite(m, c) then Argument(m, size)
    else if write && !TooWide(cfg, size) && Same(c, DSCRATCH) then Narrow(cfg, Argument(m, size))
    else if !write && TooWide(cfg, size) && N(c) in m.csr && !Same(c, DSCRATCH) then Narrow(cfg, m.csr[N(c)])
    else X(m, 8)
  }

  function GprAfter(cfg: Config, m: Machine, size: bv32, write: bool, r: bv64, n: bv64): bv64 {
    if write && !TooWide(cfg, size) && Same(r, n) && !Same(n, 0) then Argument(m, size) else X(m, n)
  }

  /** What a command leaves in general register `n`. */
  function RegisterAfter(cfg: Config, m: Machine, command: bv32, t: Target, n: bv64): bv64 {
    match t
    case GprTarget(r) => GprAfter(cfg, m, Size(command), Writes(command), r as bv64, n)
    case CsrTarget(c) => if Same(n, 8) then S0After(cfg, m, Size(command), Writes(command), c as bv64) else X(m, n)
    case _ => X(m, n)
  }

  lemma RequestIs(cfg: Config, m: Machine, command: bv32, t: Target)
    ensures t.GprTarget? ==>
      Request(cfg, m, command, t) == GprRequest(cfg, m, Size(command), Writes(command), t.r as bv64)
    ensures t.FprTarget? ==>
      Request(cfg, m, command, t) == FprRequest(cfg, m, Size(command), Writes(command), t.r as bv64)
    ensures t.CsrTarget? ==>
      Request(cfg, m, command, t) == CsrRequest(cfg, m, Size(command), Writes(command), t.c as bv64)
    ensures !t.GprTarget? && !t.FprTarget? && !t.CsrTarget? ==> Request(cfg, m, command, t) == Next(m)
  {
    hide Writes, Size, GprRequest, FprRequest, CsrRequest;
  }

  lemma RequestRegisters(cfg: Config, m: Machine, command: bv32, t: Target, n: bv64)
    ensures X(Request(cfg, m, command, t).m, n) == RegisterAfter(cfg, m, command, t, n)
  {
    RequestIs(cfg, m, command, t);
    hide Request, Writes, Size, GprRequest, FprRequest, CsrRequest, X, Same, GprAfter, S0After;
    var size, write := Size(command), Writes(command);
    if t.GprTarget? {
      GprRegisters(cfg, m, size, write, t.r as bv64, n);
    } else if t.FprTarget? {
      FprKeeps(cfg, m, size, write, t.r as bv64, n);
    } else if t.CsrTarget? {
      CsrRegisters(cfg, m, size, write, t.c as bv64, n);
    }
  }

  lemma GprRegisters(cfg: Config, m: Machine, size: bv32, write: bool, r: bv64, n: bv64)
    ensures var m' := GprRequest(cfg, m, size, write, r).m;
      && m'.csr == m.csr && m'.f == m.f
      && X(m', n) == GprAfter(cfg, m, size, write, r, n)
  {
    hide Deliver, Argument;
    DeliverRegisters(m, size, X(m, r));
  }

  lemma FprKeeps(cfg: Config, m: Machine, size: bv32, write: bool, r: bv64, n: bv64)
    ensures X(FprRequest(cfg, m, size, write, r).m, n) == X(m, n)
  {
    hide SetDataWord, SetDataDouble, FpOn, Boxed32, Boxed64;
    if !write && N(r) in m.f { DeliverRegisters(m, size, m.f[N(r)].lo); }
  }

  lemma CsrWriteS0(cfg: Config, m: Machine, size: bv32, c: bv64)
    ensures X(CsrRequest(cfg, m, size, true, c).m, 8) == S0After(cfg, m, size, true, c)
  {
    hide Argument, Narrow, CanWrite, TooWide;
  }

  lemma CsrReadS0(cfg: Config, m: Machine, size: bv32, c: bv64)
    ensures X(CsrRequest(cfg, m, size, false, c).m, 8) == S0After(cfg, m, size, false, c)
  {
    hide Deliver, Narrow, TooWide;
    if N(c) in m.csr && !TooWide(cfg, size) {
      var v := if c == DSCRATCH then X(m, 8) else Narrow(cfg, m.csr[N(c)]);
      DeliverRegisters(m.(csr := m.csr[N(DSCRATCH) := X(m, 8)]), size, v);
    }
  }

  /** A CSR command touches neither the floating-point registers nor a general one but `s0`. */
  lemma CsrFrame(cfg: Config, m: Machine, size: bv32, write: bool, c: bv64)
    ensures var m' := CsrRequest(cfg, m, size, write, c).m;
      m'.f == m.f && (m'.x == m.x || m'.x == m.x[N(8) := X(m', 8)])
  {
    hide Deliver, Argument, Narrow, CanWrite, TooWide;
    if !write && N(c) in m.csr {
      var v := if c == DSCRATCH then X(m, 8) else Narrow(cfg, m.csr[N(c)]);
      DeliverRegisters(m.(csr := m.csr[N(DSCRATCH) := X(m, 8)]), size, v);
    }
  }

  lemma CsrRegisters(cfg: Config, m: Machine, size: bv32, write: bool, c: bv64, n: bv64)
    ensures X(CsrRequest(cfg, m, size, write, c).m, n)
         == if Same(n, 8) then S0After(cfg, m, size, write, c) else X(m, n)
  {
    hide CsrRequest, S0After;
    CsrFrame(cfg, m, size, write, c);
    if write { CsrWriteS0(cfg, m, size, c); } else { CsrReadS0(cfg, m, size, c); }
  }

  /** Executing what was compiled changes no general register but the target of a write, and `s0`
      exactly as described, whether the command completes or traps. */
  lemma RegistersAfter(cfg: Config, before: seq<bv8>, m: Machine, command: bv32, progbufsize: nat, n: bv64)
    requires Accepted(cfg, before, m, command, progbufsize)
    ensures X(After(cfg, before, m, command, progbufsize), n)
         == RegisterAfter(cfg, m, command, TargetOf(command, progbufsize), n)
  {
    hide Accepted, After, Request, RegisterAfter, TargetOf;
    AfterRequest(cfg, before, m, command, progbufsize);
    RequestRegisters(cfg, m, command, TargetOf(command, progbufsize), n);
  }

  /** The CSR commands that put another value into `s0`. */
  predicate LosesS0(cfg: Config, m: Machine, size: bv32, write: bool, c: bv64) {
    if write then
      && !TooWide(cfg, size)
      && (if CanWrite(m, c)
          then Same(c, DSCRATCH) && !Same(Narrow(cfg, Argument(m, size)), X(m, 8))
          else !Same(Argument(m, size), X(m, 8)))
    else
      TooWide(cfg, size) && N(c) in m.csr && !Same(c, DSCRATCH) && !Same(Narrow(cfg, m.csr[N(c)]), X(m, 8))
  }

  /** A CSR command keeps `s0`, which it uses, exactly when it is none of these. */
  lemma S0Kept(cfg: Config, before: seq<bv8>, m: Machine, command: bv32, progbufsize: nat)
    requires Accepted(cfg, before, m, command, progbufsize) && TargetOf(command, progbufsize).CsrTarget?
    ensures X(After(cfg, before, m, command, progbufsize), 8) == X(m, 8) <==>
      !LosesS0(cfg, m, Size(command), Writes(command), TargetOf(command, progbufsize).c as bv64)
  {
    hide Accepted, After, TargetOf, Size, Writes, Argument, Narrow, X, CanWrite;
    RegistersAfter(cfg, before, m, command, progbufsize, 8);
  }

  function BoxedArgument(m: Machine, size: bv32): Freg {
    if size == 2 then Boxed32(DataWord(m)) else Boxed64(DataDouble(m))
  }

  predicate FloatsTrap(cfg: Config, m: Machine, size: bv32) {
    !FpOn(m) || !(if size == 2 then cfg.hasF else cfg.hasD)
  }

  /** What a floating-point command leaves in floating-point register `n`. */
  function FloatAfter(cfg: Config, m: Machine, size: bv32, write: bool, r: bv64, n: bv64): Freg
    requires N(n) in m.f
  {
    if write && Same(r, n) && !FloatsTrap(cfg, m, size) then BoxedArgument(m, size) else m.f[N(n)]
  }

  lemma FprFloats(cfg: Config, m: Machine, size: bv32, write: bool, r: bv64, n: bv64)
    requires N(n) in m.f
    ensures var m' := FprRequest(cfg, m, size, write, r).m;
      N(n) in m'.f && m'.f[N(n)] == FloatAfter(cfg, m, size, write, r, n)
  {
    hide Deliver, FpOn, Boxed32, Boxed64, DataWord, DataDouble, FsAndSd;
    if !write && N(r) in m.f { DeliverRegisters(m, size, m.f[N(r)].lo); }
  }

  lemma RequestFloats(cfg: Config, m: Machine, command: bv32, t: Target, n: bv64)
    requires N(n) in m.f
    ensures var f := Request(cfg, m, command, t).m.f;
      && N(n) in f
      && f[N(n)] == if t.FprTarget? then FloatAfter(cfg, m, Size(command), Writes(command), t.r as bv64, n)
                    else m.f[N(n)]
  {
    RequestIs(cfg, m, command, t);
    hide Request, Writes, Size, GprRequest, FprRequest, CsrRequest, X, FloatAfter;
    var size, write := Size(command), Writes(command);
    if t.GprTarget? {
      GprRegisters(cfg, m, size, write, t.r as bv64, n);
    } else if t.FprTarget? {
      FprFloats(cfg, m, size, write, t.r as bv64, n);
    } else if t.CsrTarget? {
      CsrFrame(cfg, m, size, write, t.c as bv64);
    }
  }

  /** Likewise no floating-point register changes but the target of a write that does not trap. */
  lemma FloatsAfter(cfg: Config, before: seq<bv8>, m: Machine, command: bv32, progbufsize: nat, n: bv64)
    requires Accepted(cfg, before, m, command, progbufsize) && N(n) in m.f
    ensures var f, t := After(cfg, before, m, command, progbufsize).f, TargetOf(command, progbufsize);
      && N(n) in f
      && f[N(n)] == if t.FprTarget? then FloatAfter(cfg, m, Size(command), Writes(command), t.r as bv64, n)
                    else m.f[N(n)]
  {
    hide Accepted, After, Request, TargetOf, FloatAfter, Size, Writes;
    AfterRequest(cfg, before, m, command, progbufsize);
    RequestFloats(cfg, m, command, TargetOf(command, progbufsize), n);
  }

  /** Saving `s0` costs `dscratch` its value; otherwise a command may change the CSR it writes, and
      `mstatus` when a floating-point register is written. */
  predicate MayChangeCsr(write: bool, t: Target, n: bv64) {
    match t
    case FprTarget(r) => write && Same(n, CSR_MSTATUS)
    case CsrTarget(c) => Same(n, DSCRATCH) || (write && Same(n, c as bv64))
    case _ => false
  }

  lemma RequestCsrs(cfg: Config, m: Machine, command: bv32, t: Target, n: bv64)
    requires N(n) in m.csr && !MayChangeCsr(Writes(command), t, n)
    ensures var csr := Request(cfg, m, command, t).m.csr; N(n) in csr && csr[N(n)] == m.csr[N(n)]
  {
    RequestIs(cfg, m, command, t);
    hide Request, Writes, Size, GprRequest, FprRequest, CsrRequest, X, Same;
    var size, write := Size(command), Writes(command);
    if t.GprTarget? {
      GprRegisters(cfg, m, size, write, t.r as bv64, n);
    } else if t.FprTarget? {
      FprKeepsCsrs(cfg, m, size, write, t.r as bv64, n);
    } else if t.CsrTarget? {
      CsrKeepsCsrs(cfg, m, size, write, t.c as bv64, n);
    }
  }

  lemma FprKeepsCsrs(cfg: Config, m: Machine, size: bv32, write: bool, r: bv64, n: bv64)
    requires N(n) in m.csr
    ensures var csr := FprRequest(cfg, m, size, write, r).m.csr;
      N(n) in csr && (csr[N(n)] == m.csr[N(n)] || (write && Same(n, CSR_MSTATUS)))
  {
    hide Deliver, Boxed32, Boxed64, DataWord, DataDouble;
    if !write && N(r) in m.f { DeliverRegisters(m, size, m.f[N(r)].lo); }
  }

  lemma CsrKeepsCsrs(cfg: Config, m: Machine, size: bv32, write: bool, c: bv64, n: bv64)
    requires N(n) in m.csr && !Same(n, DSCRATCH) && !(write && Same(n, c))
    ensures var csr := CsrRequest(cfg, m, size, write, c).m.csr; N(n) in csr && csr[N(n)] == m.csr[N(n)]
  {
    hide Deliver, Argument, Narrow, CanWrite;
    if !write && N(c) in m.csr {
      var v := if c == DSCRATCH then X(m, 8) else Narrow(cfg, m.csr[N(c)]);
      DeliverRegisters(m.(csr := m.csr[N(DSCRATCH) := X(m, 8)]), size, v);
    }
  }

  /** Every other CSR keeps its value, whether the command completes or traps. */
  lemma CsrsKept(cfg: Config, before: seq<bv8>, m: Machine, command: bv32, progbufsize: nat, n: bv64)
    requires Accepted(cfg, before, m, command, progbufsize) && N(n) in m.csr
    requires !MayChangeCsr(Writes(command), TargetOf(command, progbufsize), n)
    ensures var csr := After(cfg, before, m, command, progbufsize).csr; N(n) in csr && csr[N(n)] == m.csr[N(n)]
  {
    hide Accepted, After, Request, TargetOf, MayChangeCsr, Writes;
    AfterRequest(cfg, before, m, command, progbufsize);
    RequestCsrs(cfg, m, command, TargetOf(command, progbufsize), n);
  }

  /** Writing a floating-point register keeps `mstatus` exactly when it has no bit set besides FS
      and SD: `dirty_fp_state` clears the others, the interrupt enables among them. */
  lemma FprWriteKeepsMstatus(cfg: Config, m: Machine, size: bv32, r: bv64)
    requires Ready(cfg, m) && FprRequest(cfg, m, size, true, r).Next?
    ensures var m' := FprRequest(cfg, m, size, true, r).m;
      && N(CSR_MSTATUS) in m'.csr
      && (m'.csr[N(CSR_MSTATUS)] == m.csr[N(CSR_MSTATUS)] <==> Cleared(cfg, m.csr[N(CSR_MSTATUS)]) == 0)
  {
    hide Boxed32, Boxed64, DataWord, DataDouble, FpOn, Narrow, Cleared, FsAndSd;
    var v := m.csr[N(CSR_MSTATUS)];
    if FsAndSd(cfg, v) == v { KeptNoneCleared(cfg, v); } else if Cleared(cfg, v) == 0 { NoneClearedKept(cfg, v); }
  }

  /** The bits of `mstatus` besides FS and SD. */
  function Cleared(cfg: Config, v: bv64): bv64 {
    if cfg.rv64 then v & 0x7fff_ffff_ffff_9fff else v & 0xffff_ffff_7fff_9fff
  }

  lemma KeptNoneCleared(cfg: Config, v: bv64)
    requires FsAndSd(cfg, v) == v
    ensures Cleared(cfg, v) == 0
  {
    if cfg.rv64 { } else { }
  }

  lemma NoneClearedKept(cfg: Config, v: bv64)
    requires Cleared(cfg, v) == 0
    ensures FsAndSd(cfg, v) == v
  {
    if cfg.rv64 { } else { }
  }
}
