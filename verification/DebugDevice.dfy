/** The debug module as the object it is: byte arrays and registers updated in place by the
    debugger's accesses and by the harts' stores. */
module DebugDevice {
  import opened Wrappers
  import opened Insn
  import opened Bytes
  import opened AbstractCommand
  import opened DebugModule

  /** One more word of the abstract code; `words` are those before it. */
  method Emit(a: array<bv8>, ghost before: seq<bv8>, ghost words: seq<bv32>, i: nat, w: bv32)
    requires |before| == a.Length && |words| == i && 4 * i + 4 <= a.Length && a[..] == WriteAll(before, words)
    modifies a
    ensures a[..] == WriteAll(before, words + [w])
  {
    hide Write32;
    StoreWord(a, i, w);
    assert (words + [w])[..i] == words;
  }

  /** How the transfer part ends: with code in place, with an error, or served without code. */
  datatype Status = Emitted | Rejected | Served

  ghost predicate Transferred(c: Compiled, status: Status, words: seq<bv32>) {
    match c
    case Launch(ws) => status == Emitted && words == ws
    case Failed(ws, e) => status == Rejected && words == ws && e == CMDERR_NOTSUP
    case Custom(_) => status == Served && words == []
  }

  /** The load of the data words into register `r`, if the size is supported. */
  method EmitLoad(a: array<bv8>, ghost before: seq<bv8>, ghost words: seq<bv32>, i: nat, size: bv32, r: bv32)
    returns (ok: bool)
    requires |before| == a.Length && |words| == i && 4 * i + 4 <= a.Length && a[..] == WriteAll(before, words)
    modifies a
    ensures ok == SizeOk(size)
    ensures a[..] == WriteAll(before, if ok then words + [LoadData(size, r)] else words)
  {
    hide WriteAll, Load;
    if size == 2 {
      Emit(a, before, words, i, Load(MATCH_LW, r, 0, DEBUG_DATA_START));
    } else if size == 3 {
      Emit(a, before, words, i, Load(MATCH_LD, r, 0, DEBUG_DATA_START));
    } else {
      return false;
    }
    return true;
  }

  method EmitStore(a: array<bv8>, ghost before: seq<bv8>, ghost words: seq<bv32>, i: nat, size: bv32, r: bv32)
    returns (ok: bool)
    requires |before| == a.Length && |words| == i && 4 * i + 4 <= a.Length && a[..] == WriteAll(before, words)
    modifies a
    ensures ok == SizeOk(size)
    ensures a[..] == WriteAll(before, if ok then words + [StoreData(size, r)] else words)
  {
    hide WriteAll, Store;
    if size == 2 {
      Emit(a, before, words, i, Store(MATCH_SW, r, 0, DEBUG_DATA_START));
    } else if size == 3 {
      Emit(a, before, words, i, Store(MATCH_SD, r, 0, DEBUG_DATA_START));
    } else {
      return false;
    }
    return true;
  }

  /** Access to a CSR by way of `s0`. */
  method EmitCsr(a: array<bv8>, write: bool, size: bv32, regno: bv32, ghost command: bv32)
    returns (i: nat, status: Status, ghost words: seq<bv32>)
    requires a.Length == 20 && write == Writes(command) && size == Size(command)
    modifies a
    ensures i == |words| <= 4 && a[..] == WriteAll(old(a[..]), words)
    ensures Transferred(TransferCode(command, CsrTarget(regno)), status, words)
  {
    hide WriteAll, Size, Writes, LoadData, StoreData, Csrw, Csrr;
    ghost var before := a[..];
    words := [];
    NothingWritten(before);
    Emit(a, before, words, 0, Csrw(S0, CSR_DSCRATCH));
    words := words + [Csrw(S0, CSR_DSCRATCH)];
    if write {
      var ok := EmitLoad(a, before, words, 1, size, S0);
      if !ok {
        return 1, Rejected, words;
      }
      words := words + [LoadData(size, S0)];
      Emit(a, before, words, 2, Csrw(S0, regno));
      words := words + [Csrw(S0, regno)];
    } else {
      Emit(a, before, words, 1, Csrr(S0, regno));
      words := words + [Csrr(S0, regno)];
      var ok := EmitStore(a, before, words, 2, size, S0);
      if !ok {
        return 2, Rejected, words;
      }
      words := words + [StoreData(size, S0)];
    }
    Emit(a, before, words, 3, Csrr(S0, CSR_DSCRATCH));
    words := words + [Csrr(S0, CSR_DSCRATCH)];
    return 4, Emitted, words;
  }

  lemma NothingWritten(a: seq<bv8>)
    ensures WriteAll(a, []) == a
  {
  }

  method EmitGpr(a: array<bv8>, write: bool, size: bv32, regnum: bv32, ghost command: bv32)
    returns (i: nat, status: Status, ghost words: seq<bv32>)
    requires a.Length == 20 && write == Writes(command) && size == Size(command)
    modifies a
    ensures i == |words| <= 1 && a[..] == WriteAll(old(a[..]), words)
    ensures Transferred(TransferCode(command, GprTarget(regnum)), status, words)
  {
    hide WriteAll, Size, Writes, LoadData, StoreData;
    ghost var before := a[..];
    words := [];
    NothingWritten(before);
    var ok;
    if write {
      ok := EmitLoad(a, before, words, 0, size, regnum);
    } else {
      ok := EmitStore(a, before, words, 0, size, regnum);
    }
    if !ok {
      return 0, Rejected, words;
    }
    words := words + [if write then LoadData(size, regnum) else StoreData(size, regnum)];
    return 1, Emitted, words;
  }

  method EmitFpr(a: array<bv8>, write: bool, size: bv32, fprnum: bv32, ghost command: bv32)
    returns (i: nat, status: Status, ghost words: seq<bv32>)
    requires a.Length == 20 && write == Writes(command) && size == Size(command)
    modifies a
    ensures i == |words| <= 1 && a[..] == WriteAll(old(a[..]), words)
    ensures Transferred(TransferCode(command, FprTarget(fprnum)), status, words)
  {
    hide WriteAll, Size, Writes, Load, StoreFp;
    ghost var before := a[..];
    words := [];
    NothingWritten(before);
    if write {
      if size == 2 {
        Emit(a, before, words, 0, Load(MATCH_FLW, fprnum, 0, DEBUG_DATA_START));
      } else if size == 3 {
        Emit(a, before, words, 0, Load(MATCH_FLD, fprnum, 0, DEBUG_DATA_START));
      } else {
        return 0, Rejected, words;
      }
    } else {
      if size == 2 {
        Emit(a, before, words, 0, StoreFp(MATCH_FSW, fprnum, 0, DEBUG_DATA_START));
      } else if size == 3 {
        Emit(a, before, words, 0, StoreFp(MATCH_FSD, fprnum, 0, DEBUG_DATA_START));
      } else {
        return 0, Rejected, words;
      }
    }
    words := words + [if write then LoadDataFp(size, fprnum) else StoreDataFp(size, fprnum)];
    return 1, Emitted, words;
  }

  /** The transfer part of an abstract command. */
  method EmitTransfer(a: array<bv8>, command: bv32, progbufsize: nat)
    returns (i: nat, status: Status, ghost words: seq<bv32>)
    requires a.Length == 20
    modifies a
    ensures i == |words| <= 4 && a[..] == WriteAll(old(a[..]), words)
    ensures Transferred(TransferCode(command, TargetOf(command, progbufsize)), status, words)
  {
    hide WriteAll, Size, Writes, Load, Store, StoreFp, Csrw, Csrr;
    NothingWritten(a[..]);
    var size := Size(command);
    var write := Writes(command);
    var regno := RegNo(command);
    if Transfers(command) {
      if regno < 0x1000 && progbufsize < 2 {
        i, status, words := EmitCsr(a, write, size, regno, command);
      } else if regno >= 0x1000 && regno < 0x1020 {
        i, status, words := EmitGpr(a, write, size, regno - 0x1000, command);
      } else if regno >= 0x1020 && regno < 0x1040 {
        i, status, words := EmitFpr(a, write, size, regno - 0x1020, command);
      } else if regno >= 0xc000 && regno & 1 == 1 {
        return 0, Served, [];
      } else {
        return 0, Rejected, [];
      }
    } else {
      return 0, Emitted, [];
    }
  }

  /** A jump to the program buffer, or `ebreak`. */
  method EmitTail(a: array<bv8>, ghost before: seq<bv8>, ghost words: seq<bv32>, i: nat, command: bv32)
    requires |before| == a.Length == 20 && |words| == i <= 4 && a[..] == WriteAll(before, words)
    modifies a
    ensures a[..] == WriteAll(before, words + [Tail(command, i)])
  {
    hide WriteAll, Jal, PostExec;
    if PostExec(command) {
      Emit(a, before, words, i, Jal(0, 20 - 4 * (i as bv32)));
    } else {
      Emit(a, before, words, i, MATCH_EBREAK);
    }
  }

  lemma Finished(command: bv32, progbufsize: nat, status: Status, words: seq<bv32>)
    requires |words| <= 4
    requires Transferred(TransferCode(command, TargetOf(command, progbufsize)), status, words)
    ensures var c := Compile(command, progbufsize);
      match status
      case Emitted => c == Launch(words + [Tail(command, |words|)])
      case Rejected => c == Failed(words, CMDERR_NOTSUP)
      case Served => words == [] && c == Custom(RegNo(command) - 0xc000)
  {
    hide Jal, Load, Store, StoreFp, Csrw, Csrr, ToProgbuf, PostExec;
  }

  const DEBUG_ROM_WHERETO: bv32 := 0x300

  /** Where the abstract code starts: below the program buffer, which is below the data words. */
  function AbstractStart(progbufsize: nat): bv32
    requires progbufsize <= 25
  {
    DEBUG_DATA_START - (4 * (progbufsize as bv32) + 4) - 20
  }

  function ToAbstract(progbufsize: nat): bv32
    requires progbufsize <= 25
  {
    AbstractStart(progbufsize) - DEBUG_ROM_WHERETO
  }

  /** From the jump to the abstract code. */
  function AbstractOffset(progbufsize: nat): bv64
    requires progbufsize <= 25
  {
    AbstractStart(progbufsize) as bv64 - DEBUG_ROM_WHERETO as bv64
  }

  /** The jump written at start-up leads from its own address to the abstract code, whatever the
      size of the program buffer. */
  lemma WheretoLands(progbufsize: nat)
    requires progbufsize <= 25
    ensures Decode(SignExtend32(Jal(0, ToAbstract(progbufsize))))
         == JumpAndLink(0, AbstractOffset(progbufsize))
  {
    hide Decode, Jal, SignExtend32;
    OffsetFits(progbufsize);
    DecodeJal(0, ToAbstract(progbufsize));
  }

  lemma OffsetFits(progbufsize: nat)
    requires progbufsize <= 25
    ensures ToAbstract(progbufsize) & 1 == 0
    ensures SignExtend21(ToAbstract(progbufsize))
         == AbstractOffset(progbufsize)
  {
    SizeFits(progbufsize);
    OffsetOfSize(progbufsize as bv32);
  }

  lemma SizeFits(progbufsize: nat)
    requires progbufsize <= 25
    ensures progbufsize as bv32 <= 25
  {
    assert (progbufsize as bv32) as int == progbufsize;
  }

  lemma OffsetOfSize(w: bv32)
    requires w <= 25
    ensures var start := DEBUG_DATA_START - (4 * w + 4) - 20;
      && (start - DEBUG_ROM_WHERETO) & 1 == 0
      && SignExtend21(start - DEBUG_ROM_WHERETO) == start as bv64 - DEBUG_ROM_WHERETO as bv64
  {
  }

  /** Different objects, whatever their types. */
  ghost predicate Apart(a: object, b: object) { a != b }

  class Device {
    const nprocs: nat
    const progbufsize: nat
    const requireAuthentication: bool
    var hartsel: nat
    var control: Control
    var authenticated: bool
    var challenge: bv32
    var busy: bool
    var cmderr: bv8
    var command: bv32
    var autoexecdata: bv32
    var autoexecprogbuf: bv32
    var customBase: bv32
    const halted: array<bool>
    const resumeack: array<bool>
    const havereset: array<bool>
    const haltRequest: array<bool>
    const debugRomFlags: array<bv8>
    const dmdata: array<bv8>
    const programBuffer: array<bv8>
    const debugAbstract: array<bv8>
    const whereto: array<bv8>

    ghost predicate Valid()
      reads this
    {
      && nprocs <= MAX_HARTS && hartsel < MAX_HARTS && progbufsize <= 25
      && halted.Length == resumeack.Length == havereset.Length == haltRequest.Length == MAX_HARTS
      && debugRomFlags.Length == MAX_HARTS && whereto.Length == 4
      && dmdata.Length == 8 && programBuffer.Length == 4 * progbufsize + 4 && debugAbstract.Length == 20
      && halted != resumeack && halted != havereset && halted != haltRequest
      && resumeack != havereset && resumeack != haltRequest && havereset != haltRequest
      && debugRomFlags != dmdata && debugRomFlags != programBuffer && debugRomFlags != debugAbstract
      && dmdata != programBuffer && dmdata != debugAbstract && programBuffer != debugAbstract
      && whereto != debugRomFlags && whereto != dmdata && whereto != programBuffer && whereto != debugAbstract
      && FlagsApart(halted) && FlagsApart(resumeack) && FlagsApart(havereset) && FlagsApart(haltRequest)
    }

    ghost predicate FlagsApart(a: object) {
      Apart(a, debugRomFlags) && Apart(a, dmdata) && Apart(a, programBuffer) && Apart(a, debugAbstract)
    }

    /** The registers and the contents of the arrays. */
    ghost function State(): (s: Dm)
      requires Valid()
      reads this, halted, resumeack, havereset, haltRequest, debugRomFlags, dmdata, programBuffer, debugAbstract
      ensures Sized(s)
    {
      Dm(nprocs, progbufsize, requireAuthentication, hartsel, control, authenticated, challenge, busy, cmderr, command,
         autoexecdata, autoexecprogbuf, customBase, halted[..], resumeack[..], havereset[..], haltRequest[..],
         debugRomFlags[..], dmdata[..], programBuffer[..], debugAbstract[..])
    }

    /** The word at the fixed address to which the ROM sends a hart that is told to go. No method
        writes it. */
    ghost function Whereto(): bv32
      requires Valid()
      reads this, whereto
    {
      Read32(whereto[..], 0)
    }

    constructor (progbufsize: nat, nprocs: nat, requireAuthentication: bool, random: bv32)
      requires progbufsize <= 25 && nprocs <= MAX_HARTS
      ensures Valid() && this.progbufsize == progbufsize && this.nprocs == nprocs
      ensures this.requireAuthentication == requireAuthentication && authenticated == !requireAuthentication
      ensures hartsel == 0 && control == CONTROL_CLEAR && challenge == random && !busy && cmderr == CMDERR_NONE
      ensures autoexecdata == 0 && autoexecprogbuf == 0
      ensures forall h :: 0 <= h < MAX_HARTS ==>
        !halted[h] && !resumeack[h] && !havereset[h] && !haltRequest[h] && debugRomFlags[h] == 0
      ensures Read32(programBuffer[..], progbufsize) == MATCH_EBREAK
      ensures Decode(SignExtend32(Whereto()))
           == JumpAndLink(0, AbstractOffset(progbufsize))
    {
      hide Read32, Decode, Jal, WriteAll, Write32, AbstractOffset, ToAbstract, SignExtend32;
      this.progbufsize, this.nprocs, this.requireAuthentication := progbufsize, nprocs, requireAuthentication;
      var stopped := NewFlags();
      var acked := NewFlags();
      var beenReset := NewFlags();
      var requests := NewFlags();
      halted, resumeack, havereset, haltRequest := stopped, acked, beenReset, requests;
      var flags := NewZeros(MAX_HARTS);
      var data := NewZeros(8);
      var code := NewZeros(20);
      debugRomFlags, dmdata, debugAbstract := flags, data, code;
      var buffer := NewBuffer(progbufsize, MATCH_EBREAK);
      var jump := NewBuffer(0, Jal(0, ToAbstract(progbufsize)));
      programBuffer, whereto := buffer, jump;
      hartsel, control, challenge := 0, CONTROL_CLEAR, random;
      authenticated := !requireAuthentication;
      busy, cmderr, command := false, CMDERR_NONE, 0;
      autoexecdata, autoexecprogbuf, customBase := 0, 0, 0;
      new;
      WheretoLands(progbufsize);
    }

    /** A hart stores its number to HALTED. */
    method HartHalted(id: nat)
      requires Valid() && id < MAX_HARTS
      modifies halted, this`busy
      ensures Valid() && State() == StoreHalted(old(State()), id)
    {
      halted[id] := true;
      if hartsel == id {
        if debugRomFlags[id] & 1 == 0 {
          if hartsel == id {
            busy := false;
          }
        }
      }
      assert halted[..] == old(halted[..])[id := true];
    }

    method HartGoing()
      requires Valid()
      modifies debugRomFlags
      ensures Valid() && State() == StoreGoing(old(State()))
    {
      debugRomFlags[hartsel] := debugRomFlags[hartsel] & 0xfe;
      assert debugRomFlags[..] == old(debugRomFlags[..])[hartsel := ClearGo(old(debugRomFlags[hartsel]))];
    }

    method HartResuming(id: nat)
      requires Valid() && id < MAX_HARTS
      modifies halted, resumeack, debugRomFlags
      ensures Valid() && State() == StoreResuming(old(State()), id)
    {
      halted[id] := false;
      resumeack[id] := true;
      hide ClearResume;
      debugRomFlags[id] := ClearResume(debugRomFlags[id]);
      assert halted[..] == old(halted[..])[id := false] && resumeack[..] == old(resumeack[..])[id := true];
      assert debugRomFlags[..] == old(debugRomFlags[..])[id := ClearResume(old(debugRomFlags[id]))];
    }

    method HartException()
      requires Valid()
      modifies this`cmderr
      ensures Valid() && State() == StoreException(old(State()))
    {
      if cmderr == CMDERR_NONE {
        cmderr := CMDERR_EXCEPTION;
      }
    }

    /** `perform_abstract_command`, once nothing speaks against the command. */
    method ServeCommand()
      requires Valid() && cmderr == CMDERR_NONE && !busy
      modifies this`cmderr, this`busy, this`customBase, debugAbstract, debugRomFlags, dmdata
      ensures Valid() && State() == Serve(old(State()))
    {
      hide Compile, TransferCode, TargetOf, Transferred, WriteAll, Read32, Write32, Jal, PostExec, RegNo, Writes,
          Add, Minus, ServeCustom, Tail, SetGo;
      ghost var before := State();
      FitsInFiveWords(command, progbufsize);
      var i, status, words := EmitTransfer(debugAbstract, command, progbufsize);
      Finished(command, progbufsize, status, words);
      if status == Served {
        NothingWritten(before.code);
        assert State() == before;
        ServeCustomRegister();
        return;
      }
      if status == Rejected {
        cmderr := CMDERR_NOTSUP;
        return;
      }
      EmitTail(debugAbstract, before.code, words, i, command);
      RaiseGo();
    }

    method RaiseGo()
      requires Valid()
      modifies this`busy, debugRomFlags
      ensures Valid()
      ensures var s := old(State());
        State() == s.(busy := true, flags := s.flags[s.hartsel := SetGo(s.flags[s.hartsel])])
    {
      debugRomFlags[hartsel] := debugRomFlags[hartsel] | 1;
      busy := true;
      assert debugRomFlags[..] == old(debugRomFlags[..])[hartsel := SetGo(old(debugRomFlags[hartsel]))];
    }

    method ServeCustomRegister()
      requires Valid()
      modifies this`customBase, dmdata
      ensures Valid() && State() == ServeCustom(old(State()), RegNo(command) - 0xc000)
    {
      hide Read32, Write32, RegNo, Writes, Add, Minus;
      var customNumber := RegNo(command) - 0xc000;
      if Writes(command) {
        var v := LoadWord(dmdata, 0);
        customBase := Minus(v, customNumber);
      } else {
        StoreWord(dmdata, 0, Add(customNumber, customBase));
        StoreWord(dmdata, 1, 0);
      }
    }

    method PerformAbstractCommand()
      requires Valid()
      modifies this`cmderr, this`busy, this`customBase, debugAbstract, debugRomFlags, dmdata
      ensures Valid() && State() == Perform(old(State()))
    {
      hide Serve;
      if cmderr != CMDERR_NONE {
        return;
      }
      if busy {
        cmderr := CMDERR_BUSY;
        return;
      }
      if CommandType(command) == 0 {
        if !halted[hartsel] {
          cmderr := CMDERR_HALTRESUME;
          return;
        }
        ServeCommand();
      } else {
        cmderr := CMDERR_NOTSUP;
      }
    }

    method WriteDataWord(i: nat, value: bv32)
      requires Valid() && i < 2
      modifies this`cmderr, this`busy, this`customBase, debugAbstract, debugRomFlags, dmdata
      ensures Valid() && State() == WriteData(old(State()), i, value)
    {
      hide Perform, AutoExec, Write32;
      if !busy {
        StoreWord(dmdata, i, value);
      }
      if busy && cmderr == CMDERR_NONE {
        cmderr := CMDERR_BUSY;
      }
      if !busy && AutoExec(autoexecdata, i) {
        PerformAbstractCommand();
      }
    }

    method WriteProgbufWord(i: nat, value: bv32)
      requires Valid() && i < progbufsize
      modifies this`cmderr, this`busy, this`customBase, debugAbstract, debugRomFlags, dmdata, programBuffer
      ensures Valid() && State() == WriteProgbuf(old(State()), i, value)
    {
      hide Perform, AutoExec, Write32;
      if !busy {
        StoreWord(programBuffer, i, value);
      }
      if !busy && AutoExec(autoexecprogbuf, i) {
        PerformAbstractCommand();
      }
    }

    /** `reset` */
    method ResetModule(random: bv32)
      requires Valid()
      modifies haltRequest, this`hartsel, this`control, this`authenticated, this`challenge, this`busy, this`cmderr,
        this`autoexecdata, this`autoexecprogbuf
      ensures Valid() && State() == Reset(old(State()), random)
    {
      hide FirstSet;
      SetFirst(haltRequest, nprocs, false);
      hartsel, control := 0, CONTROL_CLEAR;
      authenticated := !requireAuthentication;
      busy, cmderr := false, CMDERR_NONE;
      autoexecdata, autoexecprogbuf := 0, 0;
      challenge := random;
    }

    /** `proc_reset` */
    method ResetProc(id: nat)
      requires Valid() && id < MAX_HARTS
      modifies havereset, halted
      ensures Valid() && State() == ProcReset(old(State()), id)
    {
      havereset[id] := true;
      halted[id] := false;
      assert havereset[..] == old(havereset[..])[id := true] && halted[..] == old(halted[..])[id := false];
    }

    method ResetAll()
      requires Valid()
      modifies havereset, halted
      ensures Valid() && State() == AllReset(old(State()))
    {
      SetFirst(havereset, nprocs, true);
      SetFirst(halted, nprocs, false);
    }

    method WriteFields(value: bv32)
      requires Valid()
      modifies this`control, this`hartsel, havereset
      ensures Valid() && State() == Fields(old(State()), value)
    {
      hide Bit, HartSelected;
      if control.dmactive {
        control := Control(Bit(value, 31), Bit(value, 30), Bit(value, 29), Bit(value, 1), true);
        hartsel := HartSelected(value);
        if Bit(value, 28) {
          havereset[hartsel] := false;
          assert havereset[..] == old(havereset[..])[hartsel := false];
        }
      }
    }

    method AskSelected()
      requires Valid()
      modifies haltRequest, debugRomFlags, resumeack, havereset, halted
      ensures Valid() && State() == AskHart(old(State()))
    {
      hide SetResume, ProcReset;
      if hartsel < nprocs {
        haltRequest[hartsel] := control.haltreq;
        assert haltRequest[..] == old(haltRequest[..])[hartsel := control.haltreq];
        assert State() == AskHalt(old(State()));
        if control.resumereq {
          debugRomFlags[hartsel] := SetResume(debugRomFlags[hartsel]);
          resumeack[hartsel] := false;
          assert debugRomFlags[..] == old(debugRomFlags[..])[hartsel := SetResume(old(debugRomFlags[hartsel]))];
          assert resumeack[..] == old(resumeack[..])[hartsel := false];
        }
        assert State() == AskResume(AskHalt(old(State())));
        if control.hartreset {
          ResetProc(hartsel);
        }
      }
    }

    /** A write to `dmcontrol`. */
    method ControlWrite(value: bv32, random: bv32)
      requires Valid()
      modifies haltRequest, debugRomFlags, resumeack, havereset, halted, this`hartsel, this`control, this`authenticated,
        this`challenge, this`busy, this`cmderr, this`autoexecdata, this`autoexecprogbuf
      ensures Valid() && State() == WriteControl(old(State()), value, random)
    {
      hide Bit, Reset, Fields, AskHart, AllReset;
      if !control.dmactive && Bit(value, 0) {
        ResetModule(random);
      }
      control := control.(dmactive := Bit(value, 0));
      assert State() == Activated(old(State()), value, random);
      if !authenticated {
        return;
      }
      WriteFields(value);
      AskSelected();
      if control.ndmreset {
        ResetAll();
      }
    }

    /** A write to `authdata`. */
    method AuthWrite(value: bv32, random: bv32)
      requires Valid()
      modifies this`authenticated, this`challenge
      ensures Valid() && State() == Authenticate(old(State()), value, random)
    {
      hide Add;
      if requireAuthentication {
        if value == Add(challenge, 1) {
          authenticated := true;
        } else {
          authenticated := false;
          challenge := random;
        }
      }
    }

    /** The debugger's write. */
    method Write(address: nat, value: bv32, random: bv32) returns (ok: bool)
      requires Valid()
      modifies this`cmderr, this`busy, this`customBase, this`command, this`autoexecdata, this`autoexecprogbuf,
        this`hartsel, this`control, this`authenticated, this`challenge, debugAbstract, debugRomFlags, dmdata,
        programBuffer, resumeack, havereset, haltRequest, halted
      ensures Valid() && (State(), ok) == DmiWrite(old(State()), address, value, random)
    {
      hide Perform, WriteData, WriteProgbuf, WriteControl, Authenticate, ClearedBy, AutoProgbuf, AutoData;
      if !authenticated && address != DMI_AUTHDATA && address != DMI_DMCONTROL {
        return false;
      }
      if DMI_DATA0 <= address < DMI_DATA0 + 2 {
        WriteDataWord(address - DMI_DATA0, value);
        return true;
      } else if DMI_PROGBUF0 <= address < DMI_PROGBUF0 + progbufsize {
        WriteProgbufWord(address - DMI_PROGBUF0, value);
        return true;
      }
      ok := WriteRegister(address, value, random);
    }

    method WriteRegister(address: nat, value: bv32, random: bv32) returns (ok: bool)
      requires Valid() && (authenticated || address == DMI_AUTHDATA || address == DMI_DMCONTROL)
      requires !IsData(address) && !IsProgbuf(State(), address)
      modifies this`cmderr, this`busy, this`customBase, this`command, this`autoexecdata, this`autoexecprogbuf,
        this`hartsel, this`control, this`authenticated, this`challenge, debugAbstract, debugRomFlags, dmdata,
        resumeack, havereset, haltRequest, halted
      ensures Valid() && (State(), ok) == DmiWrite(old(State()), address, value, random)
    {
      hide Perform, WriteData, WriteProgbuf, WriteControl, Authenticate, ClearedBy, AutoProgbuf, AutoData;
      if address == DMI_DMCONTROL {
        ControlWrite(value, random);
        return true;
      } else if address == DMI_COMMAND {
        command := value;
        PerformAbstractCommand();
        return true;
      } else if address == DMI_ABSTRACTCS {
        cmderr := ClearedBy(cmderr, value);
        return true;
      } else if address == DMI_ABSTRACTAUTO {
        autoexecprogbuf := AutoProgbuf(value);
        autoexecdata := AutoData(value);
        return true;
      } else if address == DMI_AUTHDATA {
        AuthWrite(value, random);
        return true;
      }
      return 0x37 <= address <= 0x3f;
    }

    method ReadDataWord(i: nat) returns (value: bv32)
      requires Valid() && i < 2
      modifies this`cmderr, this`busy, this`customBase, debugAbstract, debugRomFlags, dmdata
      ensures Valid() && (State(), Some(value)) == DmiRead(old(State()), DMI_DATA0 + i, 0)
    {
      hide Perform, AutoExec, Read32;
      value := LoadWord(dmdata, i);
      if busy {
        value := 0xffff_ffff;
      }
      if busy && cmderr == CMDERR_NONE {
        cmderr := CMDERR_BUSY;
      }
      if !busy && AutoExec(autoexecdata, i) {
        PerformAbstractCommand();
      }
    }

    method ReadProgbufWord(i: nat) returns (value: bv32)
      requires Valid() && i < progbufsize
      modifies this`cmderr, this`busy, this`customBase, debugAbstract, debugRomFlags, dmdata
      ensures Valid() && (State(), Some(value)) == DmiRead(old(State()), DMI_PROGBUF0 + i, 0)
    {
      hide Perform, AutoExec, Read32;
      value := LoadWord(programBuffer, i);
      if busy {
        value := 0xffff_ffff;
      }
      if !busy && AutoExec(autoexecprogbuf, i) {
        PerformAbstractCommand();
      }
    }

    /** The debugger's read, of any register; `bus` is what the system-bus part answers. */
    method Read(address: nat, bus: bv32) returns (value: Option<bv32>)
      requires Valid()
      modifies this`cmderr, this`busy, this`customBase, this`control, debugAbstract, debugRomFlags, dmdata
      ensures Valid() && (State(), value) == DmiRead(old(State()), address, bus)
    {
      hide Perform, AutoExec, Read32, ControlWord, AbstractWord, AutoWord, Flag;
      if DMI_DATA0 <= address < DMI_DATA0 + 2 {
        var word := ReadDataWord(address - DMI_DATA0);
        return Some(word);
      } else if DMI_PROGBUF0 <= address < DMI_PROGBUF0 + progbufsize {
        var word := ReadProgbufWord(address - DMI_PROGBUF0);
        return Some(word);
      } else if address == DMI_DMCONTROL {
        if hartsel < nprocs {
          control := control.(haltreq := haltRequest[hartsel]);
        }
        return Some(ControlWord(control, hartsel));
      }
      value := ReadRegister(address, bus);
    }

    /** The registers that a read does not change. */
    method ReadRegister(address: nat, bus: bv32) returns (value: Option<bv32>)
      requires Valid() && !IsData(address) && !IsProgbuf(State(), address) && address != DMI_DMCONTROL
      ensures (State(), value) == DmiRead(State(), address, bus)
    {
      hide Perform, AutoExec, Read32, ControlWord, Flag;
      if address == DMI_DMSTATUS {
        var status := Status();
        return Some(status);
      } else if address == DMI_ABSTRACTCS {
        return Some((((progbufsize as bv32) & 0x1f) << 24) | Flag(busy, 12) | (((cmderr as bv32) & 7) << 8) | 2);
      } else if address == DMI_ABSTRACTAUTO {
        return Some(((autoexecprogbuf & 0xffff) << 16) | (autoexecdata & 0xfff));
      } else if address == DMI_COMMAND {
        return Some(0);
      } else if address == DMI_HARTINFO {
        return Some(HARTINFO);
      } else if address == DMI_AUTHDATA {
        return Some(challenge);
      } else if 0x37 <= address <= 0x3f {
        return Some(bus);
      }
      return None;
    }

    /** The register `dmstatus`, flag by flag. */
    method Status() returns (value: bv32)
      requires Valid()
      ensures value == StatusWord(State())
    {
      hide StatusBits;
      var allnonexistant, allrunning, allhalted, allresumeack := false, false, false, false;
      if hartsel < nprocs {
        if halted[hartsel] {
          allhalted := true;
        } else {
          allrunning := true;
        }
        if resumeack[hartsel] {
          allresumeack := true;
        }
      } else {
        allnonexistant := true;
      }
      value := StatusBits(havereset[hartsel], allresumeack, allnonexistant, allrunning, allhalted, authenticated);
    }

    /** The bytes that executing code stores to the data area or to the program buffer. */
    method HartStore(toProgbuf: bool, offset: nat, bytes: seq<bv8>)
      requires Valid()
      requires offset + |bytes| <= if toProgbuf then programBuffer.Length else dmdata.Length
      modifies dmdata, programBuffer
      ensures Valid()
      ensures var s := old(State());
        State() == if toProgbuf then s.(progbuf := Overwrite(s.progbuf, offset, bytes))
                   else s.(data := Overwrite(s.data, offset, bytes))
    {
      if toProgbuf {
        CopyInto(programBuffer, offset, bytes);
      } else {
        CopyInto(dmdata, offset, bytes);
      }
    }
  }

  method NewFlags() returns (a: array<bool>)
    ensures fresh(a) && a.Length == MAX_HARTS && forall h :: 0 <= h < a.Length ==> !a[h]
  {
    a := new bool[MAX_HARTS](_ => false);
  }

  method NewZeros(n: nat) returns (a: array<bv8>)
    ensures fresh(a) && a.Length == n && forall k :: 0 <= k < n ==> a[k] == 0
  {
    a := new bv8[n](_ => 0);
  }

  /** A buffer of `n` zero words and a last word. */
  method NewBuffer(n: nat, last: bv32) returns (a: array<bv8>)
    ensures fresh(a) && a.Length == 4 * n + 4 && Read32(a[..], n) == last
  {
    hide Read32, WriteAll, Write32;
    a := new bv8[4 * n + 4](_ => 0);
    ghost var before := a[..];
    StoreWord(a, n, last);
    ReadWritten(before, n, last, n);
  }

  /** The first `n` flags of an array, one after the other. */
  method SetFirst(a: array<bool>, n: nat, b: bool)
    requires n <= a.Length
    modifies a
    ensures a[..] == FirstSet(old(a[..]), n, b)
  {
    var i := 0;
    while i < n
      invariant i <= n
      invariant forall h :: 0 <= h < a.Length ==> a[h] == if h < i then b else old(a[h])
    {
      a[i] := b;
      i := i + 1;
    }
  }

  lemma OverwriteOne(memory: seq<bv8>, offset: nat, bytes: seq<bv8>, k: nat)
    requires offset + |bytes| <= |memory| && k < |bytes|
    ensures Overwrite(memory, offset, bytes[..k + 1])
         == Overwrite(memory, offset, bytes[..k])[offset + k := bytes[k]]
  {
  }

  method CopyInto(a: array<bv8>, offset: nat, bytes: seq<bv8>)
    requires offset + |bytes| <= a.Length
    modifies a
    ensures a[..] == Overwrite(old(a[..]), offset, bytes)
  {
    var k := 0;
    while k < |bytes|
      invariant 0 <= k <= |bytes|
      invariant a[..] == Overwrite(old(a[..]), offset, bytes[..k])
    {
      hide Overwrite;
      OverwriteOne(old(a[..]), offset, bytes, k);
      a[offset + k] := bytes[k];
      k := k + 1;
    }
    assert bytes[..k] == bytes;
  }
}