/** The instruction encoders that the debug module uses, and the field decoders that the
    simulator applies to every instruction it executes. */
module Insn {
  const MATCH_JAL: bv32 := 0x6f
  const MATCH_LW: bv32 := 0x2003
  const MATCH_LD: bv32 := 0x3003
  const MATCH_SW: bv32 := 0x2023
  const MATCH_SD: bv32 := 0x3023
  const MATCH_FLW: bv32 := 0x2007
  const MATCH_FLD: bv32 := 0x3007
  const MATCH_FSW: bv32 := 0x2027
  const MATCH_FSD: bv32 := 0x3027
  const MATCH_CSRRW: bv32 := 0x1073
  const MATCH_CSRRS: bv32 := 0x2073
  const MATCH_EBREAK: bv32 := 0x100073

  // ---------------------------------------------------------------------------------------
  // Encoders

  function Jal(rd: bv32, imm: bv32): bv32 {
    (((imm >> 20) & 1) << 31) | (((imm >> 1) & 0x3ff) << 21) | (((imm >> 11) & 1) << 20)
    | (((imm >> 12) & 0xff) << 12) | (rd << 7) | MATCH_JAL
  }

  /** `lw`, `ld`, `flw` and `fld`: they differ only in the opcode bits. */
  function Load(match_: bv32, rd: bv32, base: bv32, offset: bv32): bv32 {
    ((offset & 0xfff) << 20) | (base << 15) | ((rd & 0x1f) << 7) | match_
  }

  /** `sw` and `sd`, which do not mask the source register. */
  function Store(match_: bv32, src: bv32, base: bv32, offset: bv32): bv32 {
    (((offset >> 5) & 0x7f) << 25) | (src << 20) | (base << 15) | ((offset & 0x1f) << 7) | match_
  }

  /** `fsw` and `fsd`. */
  function StoreFp(match_: bv32, src: bv32, base: bv32, offset: bv32): bv32 {
    (((offset >> 5) & 0x7f) << 25) | ((src & 0x1f) << 20) | (base << 15) | ((offset & 0x1f) << 7) | match_
  }

  function Csrw(source: bv32, csr: bv32): bv32 {
    (csr << 20) | (source << 15) | MATCH_CSRRW
  }

  function Csrr(rd: bv32, csr: bv32): bv32 {
    (csr << 20) | (rd << 7) | MATCH_CSRRS
  }

  // ---------------------------------------------------------------------------------------
  // Decoders

  /** A 32-bit word sign-extended to 64 bits: how `lw` fills a register, and how a fetched
      instruction is kept. */
  function SignExtend32(w: bv32): bv64 {
    if w & 0x8000_0000 == 0 then w as bv64 else 0xffff_ffff_0000_0000 | (w as bv64)
  }

  function Rd(b: bv64): bv64 { (b >> 7) & 0x1f }
  function Rs1(b: bv64): bv64 { (b >> 15) & 0x1f }
  function Rs2(b: bv64): bv64 { (b >> 20) & 0x1f }
  function Csr(b: bv64): bv64 { (b >> 20) & 0xfff }

  /** Arithmetic shift right of a signed word, by the number of bits that `ones` fills. */
  function Sra(b: bv64, n: bv7, ones: bv64): bv64
    requires n < 64
  {
    if b & 0x8000_0000_0000_0000 == 0 then b >> n else (b >> n) | ones
  }

  function IImm(b: bv64): bv64 { Sra(b, 20, 0xffff_f000_0000_0000) }

  function SImm(b: bv64): bv64 {
    ((b >> 7) & 0x1f) + (Sra(b << 32, 57, 0xffff_ffff_ffff_ff80) << 5)
  }

  function UjImm(b: bv64): bv64 {
    (((b >> 21) & 0x3ff) << 1) + (((b >> 20) & 1) << 11) + (((b >> 12) & 0xff) << 12)
    + (Sra(b, 63, 0xffff_ffff_ffff_fffe) << 20)
  }

  /** An instruction is recognised when the bits under the mask match. */
  predicate Is(b: bv64, match_: bv64, mask: bv64) { b & mask == match_ }

  // ---------------------------------------------------------------------------------------
  // Round trips

  /** A 12-bit offset as the decoders give it back. */
  function SignExtend12(offset: bv32): bv64 {
    if offset & 0x800 == 0 then (offset as bv64) & 0xfff else 0xffff_ffff_ffff_f000 | ((offset as bv64) & 0xfff)
  }

  function SignExtend21(imm: bv32): bv64 {
    if imm & 0x10_0000 == 0 then (imm as bv64) & 0x1f_ffff else 0xffff_ffff_ffe0_0000 | ((imm as bv64) & 0x1f_ffff)
  }

  /** `match_` is an opcode with a `funct3`, and the register numbers fit their fields. */
  predicate Encodable(match_: bv32, r: bv32, base: bv32) {
    match_ & 0x707f == match_ && r < 32 && base < 32
  }

  lemma LoadOpcode(match_: bv32, rd: bv32, base: bv32, offset: bv32)
    requires Encodable(match_, rd, base)
    ensures Is(SignExtend32(Load(match_, rd, base, offset)), match_ as bv64, 0x707f)
  {
  }

  lemma LoadRd(match_: bv32, rd: bv32, base: bv32, offset: bv32)
    requires Encodable(match_, rd, base)
    ensures Rd(SignExtend32(Load(match_, rd, base, offset))) == rd as bv64
  {
  }

  lemma LoadRs1(match_: bv32, rd: bv32, base: bv32, offset: bv32)
    requires Encodable(match_, rd, base)
    ensures Rs1(SignExtend32(Load(match_, rd, base, offset))) == base as bv64
  {
  }

  lemma LoadForward(match_: bv32, rd: bv32, base: bv32, offset: bv32)
    requires Encodable(match_, rd, base) && offset & 0x800 == 0
    ensures IImm(SignExtend32(Load(match_, rd, base, offset))) == SignExtend12(offset)
  {
  }

  lemma LoadBackward(match_: bv32, rd: bv32, base: bv32, offset: bv32)
    requires Encodable(match_, rd, base) && offset & 0x800 != 0
    ensures IImm(SignExtend32(Load(match_, rd, base, offset))) == SignExtend12(offset)
  {
  }

  /** Every field that `Load` encodes is decoded again. */
  lemma LoadRoundTrip(match_: bv32, rd: bv32, base: bv32, offset: bv32)
    requires Encodable(match_, rd, base)
    ensures var b := SignExtend32(Load(match_, rd, base, offset));
            && Is(b, match_ as bv64, 0x707f)
            && Rd(b) == rd as bv64 && Rs1(b) == base as bv64
            && IImm(b) == SignExtend12(offset)
  {
    hide *;
    LoadOpcode(match_, rd, base, offset);
    LoadRd(match_, rd, base, offset);
    LoadRs1(match_, rd, base, offset);
    if offset & 0x800 == 0 {
      LoadForward(match_, rd, base, offset);
    } else {
      LoadBackward(match_, rd, base, offset);
    }
  }

  lemma StoreOpcode(match_: bv32, src: bv32, base: bv32, offset: bv32)
    requires Encodable(match_, src, base)
    ensures Is(SignExtend32(Store(match_, src, base, offset)), match_ as bv64, 0x707f)
  {
  }

  lemma StoreRs2(match_: bv32, src: bv32, base: bv32, offset: bv32)
    requires Encodable(match_, src, base)
    ensures Rs2(SignExtend32(Store(match_, src, base, offset))) == src as bv64
  {
  }

  lemma StoreRs1(match_: bv32, src: bv32, base: bv32, offset: bv32)
    requires Encodable(match_, src, base)
    ensures Rs1(SignExtend32(Store(match_, src, base, offset))) == base as bv64
  {
  }

  lemma StoreForward(match_: bv32, src: bv32, base: bv32, offset: bv32)
    requires Encodable(match_, src, base) && offset & 0x800 == 0
    ensures SImm(SignExtend32(Store(match_, src, base, offset))) == SignExtend12(offset)
  {
  }

  lemma StoreBackward(match_: bv32, src: bv32, base: bv32, offset: bv32)
    requires Encodable(match_, src, base) && offset & 0x800 != 0
    ensures SImm(SignExtend32(Store(match_, src, base, offset))) == SignExtend12(offset)
  {
  }

  /** Every field that `Store` encodes is decoded again. */
  lemma StoreRoundTrip(match_: bv32, src: bv32, base: bv32, offset: bv32)
    requires Encodable(match_, src, base)
    ensures var b := SignExtend32(Store(match_, src, base, offset));
            && Is(b, match_ as bv64, 0x707f)
            && Rs2(b) == src as bv64 && Rs1(b) == base as bv64
            && SImm(b) == SignExtend12(offset)
  {
    hide *;
    StoreOpcode(match_, src, base, offset);
    StoreRs2(match_, src, base, offset);
    StoreRs1(match_, src, base, offset);
    if offset & 0x800 == 0 {
      StoreForward(match_, src, base, offset);
    } else {
      StoreBackward(match_, src, base, offset);
    }
  }

  lemma StoreFpOpcode(match_: bv32, src: bv32, base: bv32, offset: bv32)
    requires Encodable(match_, src, base)
    ensures Is(SignExtend32(StoreFp(match_, src, base, offset)), match_ as bv64, 0x707f)
  {
  }

  lemma StoreFpRs2(match_: bv32, src: bv32, base: bv32, offset: bv32)
    requires Encodable(match_, src, base)
    ensures Rs2(SignExtend32(StoreFp(match_, src, base, offset))) == src as bv64
  {
  }

  lemma StoreFpRs1(match_: bv32, src: bv32, base: bv32, offset: bv32)
    requires Encodable(match_, src, base)
    ensures Rs1(SignExtend32(StoreFp(match_, src, base, offset))) == base as bv64
  {
  }

  lemma StoreFpForward(match_: bv32, src: bv32, base: bv32, offset: bv32)
    requires Encodable(match_, src, base) && offset & 0x800 == 0
    ensures SImm(SignExtend32(StoreFp(match_, src, base, offset))) == SignExtend12(offset)
  {
  }

  lemma StoreFpBackward(match_: bv32, src: bv32, base: bv32, offset: bv32)
    requires Encodable(match_, src, base) && offset & 0x800 != 0
    ensures SImm(SignExtend32(StoreFp(match_, src, base, offset))) == SignExtend12(offset)
  {
  }

  /** Every field that `StoreFp` encodes is decoded again. */
  lemma StoreFpRoundTrip(match_: bv32, src: bv32, base: bv32, offset: bv32)
    requires Encodable(match_, src, base)
    ensures var b := SignExtend32(StoreFp(match_, src, base, offset));
            && Is(b, match_ as bv64, 0x707f)
            && Rs2(b) == src as bv64 && Rs1(b) == base as bv64
            && SImm(b) == SignExtend12(offset)
  {
    hide *;
    StoreFpOpcode(match_, src, base, offset);
    StoreFpRs2(match_, src, base, offset);
    StoreFpRs1(match_, src, base, offset);
    if offset & 0x800 == 0 {
      StoreFpForward(match_, src, base, offset);
    } else {
      StoreFpBackward(match_, src, base, offset);
    }
  }

  lemma JalOpcode(rd: bv32, imm: bv32)
    requires rd < 32
    ensures Is(SignExtend32(Jal(rd, imm)), 0x6f, 0x7f)
  {
  }

  lemma JalRd(rd: bv32, imm: bv32)
    requires rd < 32
    ensures Rd(SignExtend32(Jal(rd, imm))) == rd as bv64
  {
  }

  lemma JalForward(rd: bv32, imm: bv32)
    requires rd < 32 && imm & 1 == 0 && imm & 0x10_0000 == 0
    ensures UjImm(SignExtend32(Jal(rd, imm))) == SignExtend21(imm)
  {
  }

  lemma JalBackward(rd: bv32, imm: bv32)
    requires rd < 32 && imm & 1 == 0 && imm & 0x10_0000 != 0
    ensures UjImm(SignExtend32(Jal(rd, imm))) == SignExtend21(imm)
  {
  }

  /** A jump round trips for every even offset of 21 bits; bits above are dropped. */
  lemma JalRoundTrip(rd: bv32, imm: bv32)
    requires rd < 32 && imm & 1 == 0
    ensures var b := SignExtend32(Jal(rd, imm));
            Is(b, 0x6f, 0x7f) && Rd(b) == rd as bv64 && UjImm(b) == SignExtend21(imm)
  {
    hide *;
    JalOpcode(rd, imm);
    JalRd(rd, imm);
    if imm & 0x10_0000 == 0 { JalForward(rd, imm); } else { JalBackward(rd, imm); }
  }

  lemma CsrwOpcode(source: bv32, csr: bv32)
    requires source < 32 && csr < 0x1000
    ensures Is(SignExtend32(Csrw(source, csr)), MATCH_CSRRW as bv64, 0x707f)
  {
  }

  lemma CsrwRegisters(source: bv32, csr: bv32)
    requires source < 32 && csr < 0x1000
    ensures Rs1(SignExtend32(Csrw(source, csr))) == source as bv64 && Rd(SignExtend32(Csrw(source, csr))) == 0
  {
  }

  lemma CsrwNumber(source: bv32, csr: bv32)
    requires source < 32 && csr < 0x1000
    ensures Csr(SignExtend32(Csrw(source, csr))) == csr as bv64
  {
  }

  lemma CsrwRoundTrip(source: bv32, csr: bv32)
    requires source < 32 && csr < 0x1000
    ensures var b := SignExtend32(Csrw(source, csr));
            && Is(b, MATCH_CSRRW as bv64, 0x707f)
            && Rs1(b) == source as bv64 && Rd(b) == 0 && Csr(b) == csr as bv64
  {
    hide *;
    CsrwOpcode(source, csr);
    CsrwRegisters(source, csr);
    CsrwNumber(source, csr);
  }

  lemma CsrrOpcode(rd: bv32, csr: bv32)
    requires rd < 32 && csr < 0x1000
    ensures Is(SignExtend32(Csrr(rd, csr)), MATCH_CSRRS as bv64, 0x707f)
  {
  }

  lemma CsrrRegisters(rd: bv32, csr: bv32)
    requires rd < 32 && csr < 0x1000
    ensures Rd(SignExtend32(Csrr(rd, csr))) == rd as bv64 && Rs1(SignExtend32(Csrr(rd, csr))) == 0
  {
  }

  lemma CsrrNumber(rd: bv32, csr: bv32)
    requires rd < 32 && csr < 0x1000
    ensures Csr(SignExtend32(Csrr(rd, csr))) == csr as bv64
  {
  }

  lemma CsrrRoundTrip(rd: bv32, csr: bv32)
    requires rd < 32 && csr < 0x1000
    ensures var b := SignExtend32(Csrr(rd, csr));
            && Is(b, MATCH_CSRRS as bv64, 0x707f)
            && Rd(b) == rd as bv64 && Rs1(b) == 0 && Csr(b) == csr as bv64
  {
    hide *;
    CsrrOpcode(rd, csr);
    CsrrRegisters(rd, csr);
    CsrrNumber(rd, csr);
  }
  // ---------------------------------------------------------------------------------------
  // Recognition

  /** The instructions that abstract commands are made of. */
  datatype Instr =
    | Lw(rd: bv64, rs1: bv64, imm: bv64) | Ld(rd: bv64, rs1: bv64, imm: bv64)
    | Flw(rd: bv64, rs1: bv64, imm: bv64) | Fld(rd: bv64, rs1: bv64, imm: bv64)
    | Sw(rs2: bv64, rs1: bv64, imm: bv64) | Sd(rs2: bv64, rs1: bv64, imm: bv64)
    | Fsw(rs2: bv64, rs1: bv64, imm: bv64) | Fsd(rs2: bv64, rs1: bv64, imm: bv64)
    | Csrrw(rd: bv64, rs1: bv64, csr: bv64) | Csrrs(rd: bv64, rs1: bv64, csr: bv64)
    | JumpAndLink(rd: bv64, imm: bv64)
    | Ebreak
    | Other

  function Decode(b: bv64): Instr {
    if Is(b, 0x2003, 0x707f) then Lw(Rd(b), Rs1(b), IImm(b))
    else if Is(b, 0x3003, 0x707f) then Ld(Rd(b), Rs1(b), IImm(b))
    else if Is(b, 0x2007, 0x707f) then Flw(Rd(b), Rs1(b), IImm(b))
    else if Is(b, 0x3007, 0x707f) then Fld(Rd(b), Rs1(b), IImm(b))
    else if Is(b, 0x2023, 0x707f) then Sw(Rs2(b), Rs1(b), SImm(b))
    else if Is(b, 0x3023, 0x707f) then Sd(Rs2(b), Rs1(b), SImm(b))
    else if Is(b, 0x2027, 0x707f) then Fsw(Rs2(b), Rs1(b), SImm(b))
    else if Is(b, 0x3027, 0x707f) then Fsd(Rs2(b), Rs1(b), SImm(b))
    else if Is(b, 0x1073, 0x707f) then Csrrw(Rd(b), Rs1(b), Csr(b))
    else if Is(b, 0x2073, 0x707f) then Csrrs(Rd(b), Rs1(b), Csr(b))
    else if Is(b, 0x6f, 0x7f) then JumpAndLink(Rd(b), UjImm(b))
    else if Is(b, 0x100073, 0xffff_ffff) then Ebreak
    else Other
  }

  /** At most one opcode and `funct3` match. */
  lemma OneOpcode(b: bv64, m: bv64, n: bv64)
    requires Is(b, m, 0x707f) && m != n
    ensures !Is(b, n, 0x707f)
  {
  }

  lemma JumpAlone(b: bv64, n: bv64)
    requires Is(b, 0x6f, 0x7f) && n & 0x7f != 0x6f
    ensures !Is(b, n, 0x707f)
  {
  }

  lemma DecodeLw(rd: bv32, offset: bv32)
    requires rd < 32
    ensures Decode(SignExtend32(Load(MATCH_LW, rd, 0, offset))) == Lw(rd as bv64, 0, SignExtend12(offset))
  {
    hide SignExtend32, Load, Is, Rd, Rs1, Rs2, IImm, SImm, SignExtend12;
    LoadRoundTrip(MATCH_LW, rd, 0, offset);
  }

  lemma DecodeLd(rd: bv32, offset: bv32)
    requires rd < 32
    ensures Decode(SignExtend32(Load(MATCH_LD, rd, 0, offset))) == Ld(rd as bv64, 0, SignExtend12(offset))
  {
    hide SignExtend32, Load, Is, Rd, Rs1, Rs2, IImm, SImm, SignExtend12;
    var b := SignExtend32(Load(MATCH_LD, rd, 0, offset));
    LoadRoundTrip(MATCH_LD, rd, 0, offset);
    OneOpcode(b, 0x3003, 0x2003);
  }

  lemma DecodeFlw(rd: bv32, offset: bv32)
    requires rd < 32
    ensures Decode(SignExtend32(Load(MATCH_FLW, rd, 0, offset))) == Flw(rd as bv64, 0, SignExtend12(offset))
  {
    hide SignExtend32, Load, Is, Rd, Rs1, Rs2, IImm, SImm, SignExtend12;
    var b := SignExtend32(Load(MATCH_FLW, rd, 0, offset));
    LoadRoundTrip(MATCH_FLW, rd, 0, offset);
    OneOpcode(b, 0x2007, 0x2003);
    OneOpcode(b, 0x2007, 0x3003);
  }

  lemma DecodeFld(rd: bv32, offset: bv32)
    requires rd < 32
    ensures Decode(SignExtend32(Load(MATCH_FLD, rd, 0, offset))) == Fld(rd as bv64, 0, SignExtend12(offset))
  {
    hide SignExtend32, Load, Is, Rd, Rs1, Rs2, IImm, SImm, SignExtend12;
    var b := SignExtend32(Load(MATCH_FLD, rd, 0, offset));
    LoadRoundTrip(MATCH_FLD, rd, 0, offset);
    OneOpcode(b, 0x3007, 0x2003);
    OneOpcode(b, 0x3007, 0x3003);
    OneOpcode(b, 0x3007, 0x2007);
  }

  lemma DecodeSw(src: bv32, offset: bv32)
    requires src < 32
    ensures Decode(SignExtend32(Store(MATCH_SW, src, 0, offset))) == Sw(src as bv64, 0, SignExtend12(offset))
  {
    hide SignExtend32, Store, Is, Rd, Rs1, Rs2, IImm, SImm, SignExtend12;
    var b := SignExtend32(Store(MATCH_SW, src, 0, offset));
    StoreRoundTrip(MATCH_SW, src, 0, offset);
    OneOpcode(b, 0x2023, 0x2003);
    OneOpcode(b, 0x2023, 0x3003);
    OneOpcode(b, 0x2023, 0x2007);
    OneOpcode(b, 0x2023, 0x3007);
  }

  lemma DecodeSd(src: bv32, offset: bv32)
    requires src < 32
    ensures Decode(SignExtend32(Store(MATCH_SD, src, 0, offset))) == Sd(src as bv64, 0, SignExtend12(offset))
  {
    hide SignExtend32, Store, Is, Rd, Rs1, Rs2, IImm, SImm, SignExtend12;
    var b := SignExtend32(Store(MATCH_SD, src, 0, offset));
    StoreRoundTrip(MATCH_SD, src, 0, offset);
    OneOpcode(b, 0x3023, 0x2003);
    OneOpcode(b, 0x3023, 0x3003);
    OneOpcode(b, 0x3023, 0x2007);
    OneOpcode(b, 0x3023, 0x3007);
    OneOpcode(b, 0x3023, 0x2023);
  }

  lemma DecodeFsw(src: bv32, offset: bv32)
    requires src < 32
    ensures Decode(SignExtend32(StoreFp(MATCH_FSW, src, 0, offset))) == Fsw(src as bv64, 0, SignExtend12(offset))
  {
    hide SignExtend32, StoreFp, Is, Rd, Rs1, Rs2, IImm, SImm, SignExtend12;
    var b := SignExtend32(StoreFp(MATCH_FSW, src, 0, offset));
    StoreFpRoundTrip(MATCH_FSW, src, 0, offset);
    OneOpcode(b, 0x2027, 0x2003);
    OneOpcode(b, 0x2027, 0x3003);
    OneOpcode(b, 0x2027, 0x2007);
    OneOpcode(b, 0x2027, 0x3007);
    OneOpcode(b, 0x2027, 0x2023);
    OneOpcode(b, 0x2027, 0x3023);
  }

  lemma DecodeFsd(src: bv32, offset: bv32)
    requires src < 32
    ensures Decode(SignExtend32(StoreFp(MATCH_FSD, src, 0, offset))) == Fsd(src as bv64, 0, SignExtend12(offset))
  {
    hide SignExtend32, StoreFp, Is, Rd, Rs1, Rs2, IImm, SImm, SignExtend12;
    var b := SignExtend32(StoreFp(MATCH_FSD, src, 0, offset));
    StoreFpRoundTrip(MATCH_FSD, src, 0, offset);
    OneOpcode(b, 0x3027, 0x2003);
    OneOpcode(b, 0x3027, 0x3003);
    OneOpcode(b, 0x3027, 0x2007);
    OneOpcode(b, 0x3027, 0x3007);
    OneOpcode(b, 0x3027, 0x2023);
    OneOpcode(b, 0x3027, 0x3023);
    OneOpcode(b, 0x3027, 0x2027);
  }

  lemma DecodeCsrw(source: bv32, csr: bv32)
    requires source < 32 && csr < 0x1000
    ensures Decode(SignExtend32(Csrw(source, csr))) == Csrrw(0, source as bv64, csr as bv64)
  {
    hide SignExtend32, Csrw, Is, Rd, Rs1, Rs2, IImm, SImm, Csr;
    var b := SignExtend32(Csrw(source, csr));
    CsrwRoundTrip(source, csr);
    OneOpcode(b, 0x1073, 0x2003);
    OneOpcode(b, 0x1073, 0x3003);
    OneOpcode(b, 0x1073, 0x2007);
    OneOpcode(b, 0x1073, 0x3007);
    OneOpcode(b, 0x1073, 0x2023);
    OneOpcode(b, 0x1073, 0x3023);
    OneOpcode(b, 0x1073, 0x2027);
    OneOpcode(b, 0x1073, 0x3027);
  }

  lemma DecodeCsrr(rd: bv32, csr: bv32)
    requires rd < 32 && csr < 0x1000
    ensures Decode(SignExtend32(Csrr(rd, csr))) == Csrrs(rd as bv64, 0, csr as bv64)
  {
    hide SignExtend32, Csrr, Is, Rd, Rs1, Rs2, IImm, SImm, Csr;
    var b := SignExtend32(Csrr(rd, csr));
    CsrrRoundTrip(rd, csr);
    OneOpcode(b, 0x2073, 0x2003);
    OneOpcode(b, 0x2073, 0x3003);
    OneOpcode(b, 0x2073, 0x2007);
    OneOpcode(b, 0x2073, 0x3007);
    OneOpcode(b, 0x2073, 0x2023);
    OneOpcode(b, 0x2073, 0x3023);
    OneOpcode(b, 0x2073, 0x2027);
    OneOpcode(b, 0x2073, 0x3027);
    OneOpcode(b, 0x2073, 0x1073);
  }

  lemma DecodeJal(rd: bv32, imm: bv32)
    requires rd < 32 && imm & 1 == 0
    ensures Decode(SignExtend32(Jal(rd, imm))) == JumpAndLink(rd as bv64, SignExtend21(imm))
  {
    hide SignExtend32, Jal, Is, Rd, Rs1, Rs2, IImm, SImm, UjImm, Csr, SignExtend21;
    var b := SignExtend32(Jal(rd, imm));
    JalRoundTrip(rd, imm);
    JumpAlone(b, 0x2003);
    JumpAlone(b, 0x3003);
    JumpAlone(b, 0x2007);
    JumpAlone(b, 0x3007);
    JumpAlone(b, 0x2023);
    JumpAlone(b, 0x3023);
    JumpAlone(b, 0x2027);
    JumpAlone(b, 0x3027);
    JumpAlone(b, 0x1073);
    JumpAlone(b, 0x2073);
  }

  lemma DecodeEbreak()
    ensures Decode(SignExtend32(MATCH_EBREAK)) == Ebreak
  {
  }
}
