/** The debug module: its registers, the debugger's accesses to them, and the stores by which the
    harts running the debug ROM talk to it. */
module DebugModule {
  import opened Wrappers
  import opened AbstractCommand
  import opened Bytes

  const DMI_DATA0: nat := 0x04
  const DMI_DMCONTROL: nat := 0x10
  const DMI_DMSTATUS: nat := 0x11
  const DMI_HARTINFO: nat := 0x12
  const DMI_ABSTRACTCS: nat := 0x16
  const DMI_COMMAND: nat := 0x17
  const DMI_ABSTRACTAUTO: nat := 0x18
  const DMI_PROGBUF0: nat := 0x20
  const DMI_AUTHDATA: nat := 0x30

  /** The size of the per-hart arrays. */
  const MAX_HARTS: nat := 1024

  // ---------------------------------------------------------------------------------------
  // The byte of flags that each hart polls

  predicate Go(f: bv8) { f & 1 != 0 }
  predicate Resume(f: bv8) { f & 2 != 0 }
  function SetGo(f: bv8): bv8 { f | 1 }
  function ClearGo(f: bv8): bv8 { f & 0xfe }
  function SetResume(f: bv8): bv8 { f | 2 }
  function ClearResume(f: bv8): bv8 { f & 0xfd }

  lemma FlagBits(f: bv8)
    ensures Go(SetGo(f)) && !Go(ClearGo(f)) && Resume(SetResume(f)) && !Resume(ClearResume(f))
    ensures Go(SetResume(f)) == Go(f) && Go(ClearResume(f)) == Go(f)
    ensures Resume(SetGo(f)) == Resume(f) && Resume(ClearGo(f)) == Resume(f)
  {
  }

  // ---------------------------------------------------------------------------------------
  // State

  /** `dmcontrol`, but for the number of the selected hart. */
  datatype Control = Control(haltreq: bool, resumereq: bool, hartreset: bool, ndmreset: bool, dmactive: bool)

  const CONTROL_CLEAR := Control(false, false, false, false, false)

  /** `nprocs` harts exist; the program buffer has `progbufsize` words and a closing `ebreak`.
      `haltRequest` is the flag of each processor that asks it to halt. */
  datatype Dm = Dm(
    nprocs: nat, progbufsize: nat, requireAuthentication: bool,
    hartsel: nat, control: Control, authenticated: bool, challenge: bv32,
    busy: bool, cmderr: bv8, command: bv32, autoexecdata: bv32, autoexecprogbuf: bv32, customBase: bv32,
    halted: seq<bool>, resumeack: seq<bool>, havereset: seq<bool>, haltRequest: seq<bool>, flags: seq<bv8>,
    data: seq<bv8>, progbuf: seq<bv8>, code: seq<bv8>)

  ghost predicate Sized(s: Dm) {
    && s.nprocs <= MAX_HARTS && s.hartsel < MAX_HARTS && s.progbufsize <= 25
    && |s.halted| == |s.resumeack| == |s.havereset| == |s.haltRequest| == |s.flags| == MAX_HARTS
    && |s.data| == 8 && |s.progbuf| == 4 * s.progbufsize + 4 && |s.code| == 20
  }

  // ---------------------------------------------------------------------------------------
  // Stores by a hart

  function StoreHalted(s: Dm, id: nat): Dm
    requires Sized(s) && id < MAX_HARTS
  {
    s.(halted := s.halted[id := true], busy := s.busy && !(s.hartsel == id && !Go(s.flags[id])))
  }

  /** The flag cleared is that of the selected hart, whoever stores. */
  function StoreGoing(s: Dm): Dm
    requires Sized(s)
  {
    s.(flags := s.flags[s.hartsel := ClearGo(s.flags[s.hartsel])])
  }

  function StoreResuming(s: Dm, id: nat): Dm
    requires Sized(s) && id < MAX_HARTS
  {
    s.(halted := s.halted[id := false], resumeack := s.resumeack[id := true],
       flags := s.flags[id := ClearResume(s.flags[id])])
  }

  function StoreException(s: Dm): Dm {
    s.(cmderr := if s.cmderr == CMDERR_NONE then CMDERR_EXCEPTION else s.cmderr)
  }

  function Overwrite(memory: seq<bv8>, offset: nat, bytes: seq<bv8>): (r: seq<bv8>)
    requires offset + |bytes| <= |memory|
    ensures |r| == |memory|
  {
    memory[..offset] + bytes + memory[offset + |bytes|..]
  }

  // ---------------------------------------------------------------------------------------
  // Accesses by the debugger

  /** A command is accepted for the selected hart: its code is in place and GO is raised. */
  function Accept(s: Dm, words: seq<bv32>): Dm
    requires Sized(s) && |words| <= 5
  {
    s.(code := WriteAll(s.code, words), busy := true, flags := s.flags[s.hartsel := SetGo(s.flags[s.hartsel])])
  }

  /** A register access, for a hart that is halted, with no error pending. */
  function Serve(s: Dm): Dm
    requires Sized(s)
  {
    FitsInFiveWords(s.command, s.progbufsize);
    match Compile(s.command, s.progbufsize)
    case Launch(words) => Accept(s, words)
    case Failed(words, e) => s.(code := WriteAll(s.code, words), cmderr := e)
    case Custom(n) => ServeCustom(s, n)
  }

  function Minus(a: bv32, b: bv32): bv32 { a - b }
  function Add(a: bv32, b: bv32): bv32 { a + b }

  /** Writing V to custom register N makes register M read as V + M - N from then on. */
  function ServeCustom(s: Dm, n: bv32): Dm
    requires Sized(s)
  {
    if Writes(s.command) then s.(customBase := Minus(Read32(s.data, 0), n))
    else s.(data := Write32(Write32(s.data, 0, Add(n, s.customBase)), 1, 0))
  }

  lemma DifferenceAddedBack(v: bv32, n: bv32)
    ensures n + (v - n) == v
  {
  }

  lemma AddDifference(v: bv32, n: bv32)
    ensures Add(n, v - n) == v
  {
    DifferenceAddedBack(v, n);
  }

  lemma MinusIsDifference(v: bv32, n: bv32)
    ensures Minus(v, n) == v - n
  {
  }

  lemma AddMinus(v: bv32, n: bv32)
    ensures Add(n, Minus(v, n)) == v
  {
    hide *;
    AddDifference(v, n);
    MinusIsDifference(v, n);
  }

  /** After V is written to a custom register, that register reads as V, and register M beside it
      as M more than the base that was recorded. */
  lemma CustomRoundTrip(s: Dm, write: bv32, n: bv32, read: bv32, m: bv32)
    requires Sized(s) && Writes(write) && !Writes(read)
    ensures var written := ServeCustom(s.(command := write), n);
      var after := ServeCustom(written.(command := read), m);
      && Read32(after.data, 0) == Add(m, Minus(Read32(s.data, 0), n)) && Read32(after.data, 1) == 0
      && (m == n ==> Read32(after.data, 0) == Read32(s.data, 0))
  {
    hide Read32, Write32, Writes, Add, Minus;
    var v := Add(m, Minus(Read32(s.data, 0), n));
    AddMinus(Read32(s.data, 0), n);
    ReadWritten(s.data, 0, v, 0);
    ReadWritten(Write32(s.data, 0, v), 1, 0, 0);
    ReadWritten(Write32(s.data, 0, v), 1, 0, 1);
  }

  function CommandType(command: bv32): bv32 { command >> 24 }

  /** `perform_abstract_command`. */
  function Perform(s: Dm): Dm
    requires Sized(s)
  {
    if s.cmderr != CMDERR_NONE then s
    else if s.busy then s.(cmderr := CMDERR_BUSY)
    else if CommandType(s.command) != 0 then s.(cmderr := CMDERR_NOTSUP)
    else if !s.halted[s.hartsel] then s.(cmderr := CMDERR_HALTRESUME)
    else Serve(s)
  }

  predicate AutoExec(mask: bv32, i: nat)
    requires i < 32
  {
    (mask >> i) & 1 == 1
  }

  predicate IsData(address: nat) { DMI_DATA0 <= address < DMI_DATA0 + 2 }
  predicate IsProgbuf(s: Dm, address: nat) { DMI_PROGBUF0 <= address < DMI_PROGBUF0 + s.progbufsize }

  predicate Bit(value: bv32, i: bv6)
    requires i < 32
  {
    (value >> i) & 1 == 1
  }

  /** Ten bits select a hart; the ten above them are shifted out of the mask. */
  function HartSelected(value: bv32): (r: nat)
    ensures r < MAX_HARTS
  {
    SelectedBits(value) as int
  }

  /** The first `n` flags are cleared, or set. */
  function FirstSet(flags: seq<bool>, n: nat, b: bool): (r: seq<bool>)
    ensures |r| == |flags|
    ensures forall h :: 0 <= h < |r| ==> r[h] == if h < n then b else flags[h]
  {
    seq(|flags|, h requires 0 <= h < |flags| => if h < n then b else flags[h])
  }

  /** `reset`: everything the debugger can read, but neither the harts' flags nor whether they are
      halted. `random` is the next challenge. */
  function Reset(s: Dm, random: bv32): Dm {
    s.(haltRequest := FirstSet(s.haltRequest, s.nprocs, false), hartsel := 0, control := CONTROL_CLEAR,
       authenticated := !s.requireAuthentication, challenge := random,
       busy := false, cmderr := CMDERR_NONE, autoexecdata := 0, autoexecprogbuf := 0)
  }

  /** What requests to the harts leave alone. */
  predicate Selected(s: Dm, t: Dm) {
    t.nprocs == s.nprocs && t.hartsel == s.hartsel && t.control == s.control
  }

  /** `proc_reset`: hart `id` has been reset. */
  function ProcReset(s: Dm, id: nat): (t: Dm)
    requires Sized(s) && id < MAX_HARTS
    ensures Sized(t) && Selected(s, t) && t.haltRequest == s.haltRequest
  {
    s.(havereset := s.havereset[id := true], halted := s.halted[id := false])
  }

  function AllReset(s: Dm): Dm {
    s.(havereset := FirstSet(s.havereset, s.nprocs, true), halted := FirstSet(s.halted, s.nprocs, false))
  }

  /** The module is activated, which resets it, stays active or is deactivated. */
  function Activated(s: Dm, value: bv32, random: bv32): Dm {
    var t := if !s.control.dmactive && Bit(value, 0) then Reset(s, random) else s;
    t.(control := t.control.(dmactive := Bit(value, 0)))
  }

  /** The fields of `dmcontrol`, which a write that deactivates the module leaves as they were. */
  function Fields(s: Dm, value: bv32): Dm
    requires Sized(s)
  {
    if !s.control.dmactive then s
    else
      var sel := HartSelected(value);
      s.(control := Control(Bit(value, 31), Bit(value, 30), Bit(value, 29), Bit(value, 1), true), hartsel := sel,
         havereset := if Bit(value, 28) then s.havereset[sel := false] else s.havereset)
  }

  function AskHalt(s: Dm): (t: Dm)
    requires Sized(s)
    ensures Sized(t) && Selected(s, t) && t.haltRequest[t.hartsel] == t.control.haltreq
  {
    s.(haltRequest := s.haltRequest[s.hartsel := s.control.haltreq])
  }

  function AskResume(s: Dm): (t: Dm)
    requires Sized(s)
    ensures Sized(t) && Selected(s, t) && t.haltRequest == s.haltRequest
  {
    if s.control.resumereq then
      s.(flags := s.flags[s.hartsel := SetResume(s.flags[s.hartsel])], resumeack := s.resumeack[s.hartsel := false])
    else s
  }

  function AskReset(s: Dm): (t: Dm)
    requires Sized(s)
    ensures Sized(t) && Selected(s, t) && t.haltRequest == s.haltRequest
  {
    if s.control.hartreset then ProcReset(s, s.hartsel) else s
  }

  /** What the fields ask of the selected hart, if there is one. */
  function AskHart(s: Dm): Dm
    requires Sized(s)
  {
    if s.hartsel < s.nprocs then AskReset(AskResume(AskHalt(s))) else s
  }

  /** A write to `dmcontrol`. */
  function WriteControl(s: Dm, value: bv32, random: bv32): Dm
    requires Sized(s)
  {
    var t := Activated(s, value, random);
    if !t.authenticated then t
    else
      var u := AskHart(Fields(t, value));
      if u.control.ndmreset then AllReset(u) else u
  }

  /** A write to `authdata`: the answer to the challenge unlocks the module, anything else locks it
      and draws the next challenge. */
  function Authenticate(s: Dm, value: bv32, random: bv32): Dm {
    if !s.requireAuthentication then s
    else if value == Add(s.challenge, 1) then s.(authenticated := true)
    else s.(authenticated := false, challenge := random)
  }

  /** A write to data word `i`; refused, with an error, while busy. */
  function WriteData(s: Dm, i: nat, value: bv32): Dm
    requires Sized(s) && i < 2
  {
    if s.busy then s.(cmderr := if s.cmderr == CMDERR_NONE then CMDERR_BUSY else s.cmderr)
    else
      var s' := s.(data := Write32(s.data, i, value));
      if AutoExec(s.autoexecdata, i) then Perform(s') else s'
  }

  /** A write to program-buffer word `i`; ignored while busy. */
  function WriteProgbuf(s: Dm, i: nat, value: bv32): Dm
    requires Sized(s) && i < s.progbufsize
  {
    if s.busy then s
    else
      var s' := s.(progbuf := Write32(s.progbuf, i, value));
      if AutoExec(s.autoexecprogbuf, i) then Perform(s') else s'
  }

  /** The system-bus registers, which are not part of `Dm`. */
  predicate IsSystemBus(address: nat) { 0x37 <= address <= 0x3f }

  /** Writing ones to `cmderr` clears them. */
  function ClearedBy(cmderr: bv8, value: bv32): bv8 { cmderr & !(((value >> 8) & 7) as bv8) }

  function AutoProgbuf(value: bv32): bv32 { (value >> 16) & 0xffff }
  function AutoData(value: bv32): bv32 { value & 0xfff }

  /** `dmi_write`: the new state and whether the access succeeded; `random` is drawn when a new
      challenge is needed. */
  function DmiWrite(s: Dm, address: nat, value: bv32, random: bv32): (Dm, bool)
    requires Sized(s)
  {
    if !s.authenticated && address != DMI_AUTHDATA && address != DMI_DMCONTROL then (s, false)
    else if IsData(address) then (WriteData(s, address - DMI_DATA0, value), true)
    else if IsProgbuf(s, address) then (WriteProgbuf(s, address - DMI_PROGBUF0, value), true)
    else if address == DMI_DMCONTROL then (WriteControl(s, value, random), true)
    else if address == DMI_COMMAND then (Perform(s.(command := value)), true)
    else if address == DMI_ABSTRACTCS then (s.(cmderr := ClearedBy(s.cmderr, value)), true)
    else if address == DMI_ABSTRACTAUTO then
      (s.(autoexecprogbuf := AutoProgbuf(value), autoexecdata := AutoData(value)), true)
    else if address == DMI_AUTHDATA then (Authenticate(s, value, random), true)
    else (s, IsSystemBus(address))
  }

  function Flag(b: bool, i: bv6): bv32
    requires i < 32
  {
    if b then 1 << i else 0
  }

  /** Whether the selected hart is asked to halt is taken from the hart. */
  function Asked(s: Dm): Control
    requires Sized(s)
  {
    if s.hartsel < s.nprocs then s.control.(haltreq := s.haltRequest[s.hartsel]) else s.control
  }

  /** The register `dmcontrol` as it is read. */
  function ControlWord(c: Control, hartsel: nat): bv32
    requires hartsel < MAX_HARTS
  {
    Joined(Flag(c.haltreq, 31), Flag(c.resumereq, 30), Flag(c.hartreset, 29), SelectField(hartsel),
           Flag(c.ndmreset, 1), Flag(c.dmactive, 0))
  }

  function Joined(a: bv32, b: bv32, c: bv32, d: bv32, e: bv32, f: bv32): bv32 { a | b | c | d | e | f }

  function SelectField(hartsel: nat): bv32
    requires hartsel < MAX_HARTS
  {
    (hartsel as bv10 as bv32) << 16
  }

  /** Of a hart that exists, whether it is halted and has resumed; a hart that does not exist is
      reported as such, and as neither halted nor running. */
  function StatusWord(s: Dm): bv32
    requires Sized(s)
  {
    var exists_ := s.hartsel < s.nprocs;
    var halted := exists_ && s.halted[s.hartsel];
    StatusBits(s.havereset[s.hartsel], exists_ && s.resumeack[s.hartsel], !exists_, exists_ && !halted, halted,
               s.authenticated)
  }

  /** Each state of the selected hart is reported twice, as that of all selected harts and of any;
      the version is 2. */
  function StatusBits(havereset: bool, acked: bool, nonexistent: bool, running: bool, halted: bool,
      authenticated: bool): bv32
  {
    Flag(true, 22) | Flag(havereset, 19) | Flag(havereset, 18) | Flag(acked, 17) | Flag(acked, 16)
    | Flag(nonexistent, 15) | Flag(nonexistent, 14) | Flag(running, 11) | Flag(running, 10) | Flag(halted, 9)
    | Flag(halted, 8) | Flag(authenticated, 7) | 2
  }

  function AbstractWord(s: Dm): bv32
    requires Sized(s)
  {
    (((s.progbufsize as bv32) & 0x1f) << 24) | Flag(s.busy, 12) | (((s.cmderr as bv32) & 7) << 8) | 2
  }

  function AutoWord(s: Dm): bv32 { ((s.autoexecprogbuf & 0xffff) << 16) | (s.autoexecdata & 0xfff) }

  const HARTINFO: bv32 := (1 << 20) | (1 << 16) | (2 << 12) | DEBUG_DATA_START

  /** `dmi_read`: the new state, and the value if the register exists; `bus` is what the system-bus
      part answers. Unlike a write, a read is not refused to a debugger that has not
      authenticated. */
  function DmiRead(s: Dm, address: nat, bus: bv32): (Dm, Option<bv32>)
    requires Sized(s)
  {
    if IsData(address) then
      var i := address - DMI_DATA0;
      if s.busy then (s.(cmderr := if s.cmderr == CMDERR_NONE then CMDERR_BUSY else s.cmderr), Some(0xffff_ffff))
      else (if AutoExec(s.autoexecdata, i) then Perform(s) else s, Some(Read32(s.data, i)))
    else if IsProgbuf(s, address) then
      var i := address - DMI_PROGBUF0;
      if s.busy then (s, Some(0xffff_ffff))
      else (if AutoExec(s.autoexecprogbuf, i) then Perform(s) else s, Some(Read32(s.progbuf, i)))
    else if address == DMI_DMCONTROL then
      (s.(control := Asked(s)), Some(ControlWord(Asked(s), s.hartsel)))
    else if address == DMI_DMSTATUS then (s, Some(StatusWord(s)))
    else if address == DMI_ABSTRACTCS then (s, Some(AbstractWord(s)))
    else if address == DMI_ABSTRACTAUTO then
      (s, Some(AutoWord(s)))
    else if address == DMI_COMMAND then (s, Some(0))
    else if address == DMI_HARTINFO then (s, Some(HARTINFO))
    else if address == DMI_AUTHDATA then (s, Some(s.challenge))
    else if IsSystemBus(address) then (s, Some(bus))
    else (s, None)
  }

  // ---------------------------------------------------------------------------------------
  // What is written to dmcontrol is read back

  /** The fields of `dmcontrol` that the module has: all but the acknowledgement of a reset. */
  const CONTROL_FIELDS: bv32 := 0xe3ff_0003

  function SelectedBits(value: bv32): bv10 { ((value >> 16) & 0x3ff) as bv10 }

  lemma SelectedInPlace(value: bv32)
    ensures (SelectedBits(value) as bv32) << 16 == Selection(value)
  {
  }

  lemma BitsOfNumber(b: bv10)
    ensures (b as int) as bv10 == b
  {
  }

  lemma SelectedField(value: bv32)
    ensures SelectField(HartSelected(value)) == Selection(value)
  {
    SelectedInPlace(value);
    BitsOfNumber(SelectedBits(value));
    hide SelectedBits;
  }

  lemma FlagOfBit(value: bv32, i: bv6)
    requires i < 32
    ensures Flag(Bit(value, i), i) == Masked(value, i)
  {
  }

  function Masked(value: bv32, i: bv6): bv32
    requires i < 32
  {
    value & (1 << i)
  }

  function Selection(value: bv32): bv32 { value & 0x3ff_0000 }

  lemma ControlMasks(value: bv32)
    ensures Joined(Masked(value, 31), Masked(value, 30), Masked(value, 29), Selection(value),
                   Masked(value, 1), Masked(value, 0)) == value & CONTROL_FIELDS
  {
  }

  /** The word of fields taken from a written value. */
  lemma ControlBits(value: bv32)
    requires Bit(value, 0)
    ensures ControlWord(Control(Bit(value, 31), Bit(value, 30), Bit(value, 29), Bit(value, 1), true),
                        HartSelected(value)) == value & CONTROL_FIELDS
  {
    hide Flag, Bit, SelectField, HartSelected, Joined, Masked, Selection;
    FlagOfBit(value, 31);
    FlagOfBit(value, 30);
    FlagOfBit(value, 29);
    FlagOfBit(value, 1);
    FlagOfBit(value, 0);
    SelectedField(value);
    ControlMasks(value);
  }

  lemma ActivatedSized(s: Dm, value: bv32, random: bv32)
    requires Sized(s)
    ensures var t := Activated(s, value, random);
      Sized(t) && t.nprocs == s.nprocs && t.control.dmactive == Bit(value, 0)
  {
    hide Bit;
  }

  lemma FieldsWritten(s: Dm, value: bv32)
    requires Sized(s) && s.control.dmactive
    ensures var t := Fields(s, value);
      && Sized(t) && t.nprocs == s.nprocs && t.hartsel == HartSelected(value)
      && t.control == Control(Bit(value, 31), Bit(value, 30), Bit(value, 29), Bit(value, 1), true)
  {
    hide Bit, HartSelected;
  }

  lemma AskHartKeeps(s: Dm)
    requires Sized(s)
    ensures var t := AskHart(s);
      Sized(t) && Selected(s, t) && (t.hartsel < t.nprocs ==> t.haltRequest[t.hartsel] == t.control.haltreq)
  {
    hide AskHalt, AskResume, AskReset;
  }

  lemma AllResetKeeps(s: Dm)
    requires Sized(s)
    ensures var t := AllReset(s);
      && Sized(t) && t.nprocs == s.nprocs && t.hartsel == s.hartsel && t.control == s.control
      && t.haltRequest == s.haltRequest
  {
  }

  /** The registers that a write which reaches them leaves behind. */
  lemma ControlWritten(s: Dm, value: bv32, random: bv32)
    requires Sized(s) && Bit(value, 0) && WriteControl(s, value, random).authenticated
    ensures var t := WriteControl(s, value, random);
      && t.control == Control(Bit(value, 31), Bit(value, 30), Bit(value, 29), Bit(value, 1), true)
      && t.hartsel == HartSelected(value)
      && Sized(t) && (t.hartsel < t.nprocs ==> t.haltRequest[t.hartsel] == t.control.haltreq)
  {
    hide Bit, HartSelected, Activated, Fields, AskHart, AllReset, Sized;
    var t := Activated(s, value, random);
    ActivatedSized(s, value, random);
    FieldsWritten(t, value);
    AskHartKeeps(Fields(t, value));
    AllResetKeeps(AskHart(Fields(t, value)));
  }

  /** A write that activates the module, or finds it active, is read back, whether the selected hart
      exists or not and whatever is reset on the way, unless authentication is wanting. */
  lemma ControlReadBack(s: Dm, value: bv32, random: bv32, bus: bv32)
    requires Sized(s) && Bit(value, 0)
    ensures var t := WriteControl(s, value, random);
      t.authenticated ==> Sized(t) && DmiRead(t, DMI_DMCONTROL, bus).1 == Some(value & CONTROL_FIELDS)
  {
    ControlBits(value);
    hide Bit, HartSelected, ControlWord, WriteControl;
    if WriteControl(s, value, random).authenticated { ControlWritten(s, value, random); }
  }
}
