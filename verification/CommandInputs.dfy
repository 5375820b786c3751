/** Concrete abstract commands that do what a reader would not expect of them. */
module CommandInputs {
  import opened Bytes
  import opened Insn
  import opened AbstractCommand

  /** CSRs that take every value. */
  function Plain(rv64: bool): Config { Config(rv64, true, true, (c, v) => v) }

  function Numbered(k: nat): Number
    requires k < 32
  {
    N(k as bv64)
  }

  function AllRegisters<T>(v: T): map<Number, T> {
    map k: nat {:trigger Numbered(k)} | k < 32 :: Numbered(k) := v
  }

  lemma RegisterNumber(r: bv64)
    requires r < 32
    ensures r as int < 32 && Numbered(r as int) == N(r)
  {
  }

  lemma HasRegister<T>(v: T, r: bv64)
    requires r < 32
    ensures N(r) in AllRegisters(v) && AllRegisters(v)[N(r)] == v
  {
    RegisterNumber(r);
    hide Numbered;
    assert Numbered(r as int) in AllRegisters(v);
  }

  /** All registers zero but `mstatus`, and a one in the data words. */
  function Zeroed(mstatus: bv64): Machine {
    Machine(0, AllRegisters(0), AllRegisters(Freg(0, 0)),
            map[N(CSR_MSTATUS) := mstatus, N(DSCRATCH) := 0, N(0xc00) := 0], [1, 0, 0, 0, 0, 0, 0, 0])
  }

  lemma OneInData(m: Machine)
    requires m.data == [1, 0, 0, 0, 0, 0, 0, 0]
    ensures Argument(m, 2) == 1
  {
    assert Read32(m.data, 0) == 1;
  }

  lemma ZeroIsNarrow(cfg: Config)
    ensures Narrow(cfg, 0) == 0
  {
  }

  lemma ZeroedReady(rv64: bool, mstatus: bv64)
    ensures Ready(Plain(rv64), Zeroed(mstatus)) && X(Zeroed(mstatus), 8) == 0
  {
    hide AllRegisters, Narrow;
    var m := Zeroed(mstatus);
    forall r: bv64 | r < 32
      ensures N(r) in m.x && N(r) in m.f && m.x[N(r)] == 0
    {
      HasRegister<bv64>(0, r);
      HasRegister(Freg(0, 0), r);
    }
    ZeroIsNarrow(Plain(rv64));
    assert N(0) in m.x && N(8) in m.x;
    assert N(CSR_MSTATUS) in m.csr && N(DSCRATCH) in m.csr;
  }

  function Before(): seq<bv8> { seq(20, i => 0) }

  /** Reads of CSR 0x300 with 64 bits; writes of 32 bits to a read-only CSR, to `dscratch` and to
      floating-point register 0. */
  const READ_WIDE: bv32 := 0x0032_0300
  const WRITE_READ_ONLY: bv32 := 0x0023_0c00
  const WRITE_DSCRATCH: bv32 := 0x0023_07b2
  const WRITE_FLOAT: bv32 := 0x0023_1020

  lemma Fields()
    ensures TargetOf(READ_WIDE, 0) == CsrTarget(0x300) && Size(READ_WIDE) == 3 && !Writes(READ_WIDE)
    ensures TargetOf(WRITE_READ_ONLY, 0) == CsrTarget(0xc00)
    ensures Size(WRITE_READ_ONLY) == 2 && Writes(WRITE_READ_ONLY)
    ensures TargetOf(WRITE_DSCRATCH, 0) == CsrTarget(0x7b2) && Size(WRITE_DSCRATCH) == 2 && Writes(WRITE_DSCRATCH)
    ensures TargetOf(WRITE_FLOAT, 0) == FprTarget(0) && Size(WRITE_FLOAT) == 2 && Writes(WRITE_FLOAT)
  {
  }

  lemma Accepts(command: bv32, rv64: bool, mstatus: bv64)
    requires SizeOk(Size(command)) && (TargetOf(command, 0).CsrTarget? || TargetOf(command, 0).FprTarget?)
    ensures Accepted(Plain(rv64), Before(), Zeroed(mstatus), command, 0)
  {
    ZeroedReady(rv64, mstatus);
    hide Ready, Size, TargetOf, SizeOk, Writes, PostExec, Jal, LoadData, StoreData, LoadDataFp, StoreDataFp, Csrw, Csrr;
  }

  /** One input for each way in which a CSR command loses `s0`, which is zero before: a write refused
      after its argument was loaded, a write of `dscratch`, and a read too wide for a 32-bit hart. */
  lemma S0Lost()
    ensures Accepted(Plain(true), Before(), Zeroed(0), WRITE_READ_ONLY, 0)
    ensures X(Zeroed(0), 8) == 0 && X(After(Plain(true), Before(), Zeroed(0), WRITE_READ_ONLY, 0), 8) == 1
    ensures Accepted(Plain(true), Before(), Zeroed(0), WRITE_DSCRATCH, 0)
    ensures X(After(Plain(true), Before(), Zeroed(0), WRITE_DSCRATCH, 0), 8) == 1
    ensures Accepted(Plain(false), Before(), Zeroed(8), READ_WIDE, 0)
    ensures X(Zeroed(8), 8) == 0 && X(After(Plain(false), Before(), Zeroed(8), READ_WIDE, 0), 8) == 8
  {
    Fields();
    ZeroedReady(true, 0);
    ZeroedReady(false, 8);
    S0Values();
    hide Size, TargetOf, Writes, Accepted, After, X, Zeroed, Plain, Before, S0After;
    Accepts(WRITE_READ_ONLY, true, 0);
    Accepts(WRITE_DSCRATCH, true, 0);
    Accepts(READ_WIDE, false, 8);
    RegistersAfter(Plain(true), Before(), Zeroed(0), WRITE_READ_ONLY, 0, 8);
    RegistersAfter(Plain(true), Before(), Zeroed(0), WRITE_DSCRATCH, 0, 8);
    RegistersAfter(Plain(false), Before(), Zeroed(8), READ_WIDE, 0, 8);
  }

  lemma S0Values()
    ensures S0After(Plain(true), Zeroed(0), 2, true, 0xc00) == 1
    ensures S0After(Plain(true), Zeroed(0), 2, true, 0x7b2) == 1
    ensures S0After(Plain(false), Zeroed(8), 3, false, 0x300) == 8
  {
    OneInData(Zeroed(0));
    hide Argument, AllRegisters;
    assert ReadOnly(0xc00) && !ReadOnly(0x7b2);
    var m := Zeroed(0);
    assert N(0x7b2) in m.csr;
    var m8 := Zeroed(8);
    assert N(0x300) in m8.csr && m8.csr[N(0x300)] == 8;
  }

  /** An input at which writing a floating-point register changes `mstatus`: 0x6008, FS set and an
      interrupt enable besides, becomes 0x6000. */
  lemma FloatWriteClears()
    ensures var cfg, m := Plain(true), Zeroed(0x6008);
      && Accepted(cfg, Before(), m, WRITE_FLOAT, 0)
      && N(CSR_MSTATUS) in m.csr && m.csr[N(CSR_MSTATUS)] == 0x6008
      && var csr := After(cfg, Before(), m, WRITE_FLOAT, 0).csr;
         N(CSR_MSTATUS) in csr && csr[N(CSR_MSTATUS)] == 0x6000
  {
    var cfg, m := Plain(true), Zeroed(0x6008);
    Fields();
    Accepts(WRITE_FLOAT, true, 0x6008);
    HasRegister(Freg(0, 0), 0);
    FloatRequest(cfg, m);
    hide Accepted, After, Request, TargetOf, Size, Writes;
    AfterRequest(cfg, Before(), m, WRITE_FLOAT, 0);
  }

  lemma FloatRequest(cfg: Config, m: Machine)
    requires cfg == Plain(true) && m == Zeroed(0x6008)
    ensures var csr := Request(cfg, m, WRITE_FLOAT, FprTarget(0)).m.csr;
      && N(CSR_MSTATUS) in csr && csr[N(CSR_MSTATUS)] == 0x6000
      && N(CSR_MSTATUS) in m.csr && m.csr[N(CSR_MSTATUS)] == 0x6008
  {
    Fields();
    HasRegister(Freg(0, 0), 0);
    hide Size, Writes, AllRegisters, Boxed32, DataWord;
    assert m.csr[N(CSR_MSTATUS)] == 0x6008;
    assert FpOn(m);
    assert FsAndSd(cfg, 0x6008) == 0x6000;
  }
}
