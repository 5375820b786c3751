/** The JTAG test access port in front of the debug module: a state machine clocked by pins, with
    an instruction register and a data register that are shifted bit by bit. */
module Jtag {
  import opened Arith

  datatype State =
    | TestLogicReset | RunTestIdle
    | SelectDrScan | CaptureDr | ShiftDr | Exit1Dr | PauseDr | Exit2Dr | UpdateDr
    | SelectIrScan | CaptureIr | ShiftIr | Exit1Ir | PauseIr | Exit2Ir | UpdateIr

  const IR_IDCODE: nat := 1
  const IR_DTMCONTROL: nat := 0x10
  const IR_DBUS: nat := 0x11
  const IR_LENGTH: nat := 5
  const IDCODE: nat := 0xdead_beef
  const ABITS: nat := 6
  const DTMCONTROL: nat := 6 * 16 + 1

  const DMI_OP_READ: nat := 1
  const DMI_OP_WRITE: nat := 2
  const STATUS_SUCCESS: nat := 0
  const STATUS_FAILED: nat := 2

  function Next(s: State, tms: bool): State {
    match s
    case TestLogicReset => if tms then TestLogicReset else RunTestIdle
    case RunTestIdle => if tms then SelectDrScan else RunTestIdle
    case SelectDrScan => if tms then SelectIrScan else CaptureDr
    case CaptureDr => if tms then Exit1Dr else ShiftDr
    case ShiftDr => if tms then Exit1Dr else ShiftDr
    case Exit1Dr => if tms then UpdateDr else PauseDr
    case PauseDr => if tms then Exit2Dr else PauseDr
    case Exit2Dr => if tms then UpdateDr else ShiftDr
    case UpdateDr => if tms then SelectDrScan else RunTestIdle
    case SelectIrScan => if tms then TestLogicReset else CaptureIr
    case CaptureIr => if tms then Exit1Ir else ShiftIr
    case ShiftIr => if tms then Exit1Ir else ShiftIr
    case Exit1Ir => if tms then UpdateIr else PauseIr
    case PauseIr => if tms then Exit2Ir else PauseIr
    case Exit2Ir => if tms then UpdateIr else ShiftIr
    case UpdateIr => if tms then SelectDrScan else RunTestIdle
  }

  /** A call of the debug module, and what it answers. */
  datatype Call = Read(address: nat) | Write(address: nat, data: nat)
  datatype Reply = Reply(ok: bool, value: nat)

  /** The pins as they were last set, the registers, and the calls made so far. */
  datatype Tap = Tap(tck: bool, tms: bool, tdi: bool, tdo: bool, ir: nat, dr: nat, drLength: nat, dmi: nat,
                     state: State, calls: seq<Call>)

  /** One setting of the pins; `reply` is what the debug module answers if it is called. */
  datatype Pins = Pins(tck: bool, tms: bool, tdi: bool, reply: Reply)

  // ---------------------------------------------------------------------------------------
  // Fields

  function Bit(b: bool): nat { if b then 1 else 0 }

  /** `v |= b << k`. */
  function OrBit(v: nat, k: nat, b: bool): nat {
    if b && (v / Pow2(k)) % 2 == 0 then v + Pow2(k) else v
  }

  // ---------------------------------------------------------------------------------------
  // Clocking

  function Captured(s: Tap): Tap {
    if s.ir == IR_IDCODE then s.(dr := IDCODE, drLength := 32)
    else if s.ir == IR_DTMCONTROL then s.(dr := DTMCONTROL, drLength := 32)
    else if s.ir == IR_DBUS then s.(dr := s.dmi, drLength := ABITS + 34)
    else s
  }

  function Op(v: nat): nat { v % 4 }
  function Payload(v: nat): nat { (v / 4) % 0x1_0000_0000 }
  function Address(v: nat): nat { (v / 0x4_0000_0000) % 64 }
  function Word(address: nat, data: nat, op: nat): nat { op + 4 * data + 0x4_0000_0000 * address }

  /** `update_dr`: the data register is a request to the debug module, whose answer is left in
      `dmi` for the next capture. */
  function Updated(s: Tap, reply: Reply): Tap {
    if s.ir != IR_DBUS then s
    else
      var op, data, address := Op(s.dr), Payload(s.dr), Address(s.dr);
      var success := (op != DMI_OP_READ && op != DMI_OP_WRITE) || reply.ok;
      var kept := if op == DMI_OP_READ && reply.ok then reply.value % 0x1_0000_0000 else data;
      s.(calls := if op == DMI_OP_READ then s.calls + [Read(address)]
                  else if op == DMI_OP_WRITE then s.calls + [Write(address, data)]
                  else s.calls,
         dmi := s.dr + 4 * (kept - data) + ((if success then STATUS_SUCCESS else STATUS_FAILED) - op))
  }

  function Shifted(s: Tap): Tap
    requires s.drLength > 0
  {
    if s.state == ShiftDr then s.(dr := OrBit(s.dr / 2, s.drLength - 1, s.tdi))
    else if s.state == ShiftIr then s.(ir := OrBit(s.ir / 2, IR_LENGTH - 1, s.tdi))
    else s
  }

  /** What happens on entering the state that `t` is already in. */
  function Entered(t: Tap, reply: Reply): Tap {
    match t.state
    case TestLogicReset => t.(ir := IR_IDCODE)
    case CaptureDr => Captured(t)
    case ShiftDr => t.(tdo := t.dr % 2 == 1)
    case UpdateDr => Updated(t, reply)
    case ShiftIr => t.(tdo := t.ir % 2 == 1)
    case _ => t
  }

  /** A rising edge of the clock. It acts on the mode and data pins as they were set before. */
  function Edge(s: Tap, reply: Reply): Tap
    requires s.drLength > 0
  {
    Entered(Shifted(s).(state := Next(s.state, s.tms)), reply)
  }

  predicate Rises(s: Tap, p: Pins) { !s.tck && p.tck }

  /** `set_pins`. */
  function SetPins(s: Tap, p: Pins): Tap
    requires s.drLength > 0
  {
    (if Rises(s, p) then Edge(s, p.reply) else s).(tck := p.tck, tms := p.tms, tdi := p.tdi)
  }

  /** The data register fits its length, and while shifting the output pin shows its low bit. */
  predicate Valid(s: Tap) {
    && 0 < s.drLength && s.dr < Pow2(s.drLength) && s.dmi < 0x100_0000_0000
    && (s.state == ShiftDr ==> s.tdo == (s.dr % 2 == 1))
    && (InDrColumn(s.state) && s.ir == IR_DBUS ==> s.drLength == 40)
  }

  // ---------------------------------------------------------------------------------------
  // Bits

  /** The number whose bits are given, the least significant first. */
  function Val(bits: seq<bool>): nat {
    if bits == [] then 0 else Bit(bits[0]) + 2 * Val(bits[1..])
  }

  lemma {:induction false} ValBound(bits: seq<bool>)
    ensures Val(bits) < Pow2(|bits|)
  {
    if bits != [] { ValBound(bits[1..]); }
  }

  /** The bits determine the number. */
  lemma {:induction false} ValInjective(a: seq<bool>, b: seq<bool>)
    requires |a| == |b| && Val(a) == Val(b)
    ensures a == b
  {
    if a != [] {
      ValInjective(a[1..], b[1..]);
      assert a == [a[0]] + a[1..] && b == [b[0]] + b[1..];
    }
  }

  /** The low `length` bits of a number, the least significant first. */
  function Bits(v: nat, length: nat): seq<bool> {
    if length == 0 then [] else [v % 2 == 1] + Bits(v / 2, length - 1)
  }

  lemma {:induction false} ValOfBits(v: nat, length: nat)
    requires v < Pow2(length)
    ensures |Bits(v, length)| == length && Val(Bits(v, length)) == v
  {
    if length > 0 {
      ValOfBits(v / 2, length - 1);
      assert Bits(v, length)[1..] == Bits(v / 2, length - 1);
    }
  }

  lemma BitsFromVal(bits: seq<bool>, v: nat, length: nat)
    requires |bits| == length && Val(bits) == v
    ensures bits == Bits(v, length)
  {
    ValBound(bits);
    ValOfBits(v, length);
    ValInjective(bits, Bits(v, length));
  }

  /** Shifting a number of `length` bits right and a bit in at the top. */
  lemma ShiftIn(v: nat, length: nat, b: bool)
    requires length > 0 && v < Pow2(length)
    ensures v / 2 < Pow2(length - 1)
    ensures OrBit(v / 2, length - 1, b) == v / 2 + Bit(b) * Pow2(length - 1) < Pow2(length)
  {
    var p := Pow2(length - 1);
    assert Pow2(length) == 2 * p;
    DivModUnique(v / 2, p, 0, v / 2);
  }

  lemma ShiftBalance(v: nat, length: nat, b: bool)
    requires length > 0 && v < Pow2(length)
    ensures 2 * OrBit(v / 2, length - 1, b) + v % 2 == v + Bit(b) * Pow2(length)
  {
    ShiftIn(v, length, b);
  }

  // ---------------------------------------------------------------------------------------
  // A scan of the data register

  predicate InDrColumn(s: State) {
    s == CaptureDr || s == ShiftDr || s == Exit1Dr || s == PauseDr || s == Exit2Dr
  }

  /** The data register's length stays positive. */
  lemma LengthStays(s: Tap, p: Pins)
    requires s.drLength > 0
    ensures SetPins(s, p).drLength > 0
  {
  }

  ghost function Run(s: Tap, pins: seq<Pins>): (r: Tap)
    requires s.drLength > 0
    ensures r.drLength > 0
    decreases |pins|
  {
    if pins == [] then s else LengthStays(s, pins[0]); Run(SetPins(s, pins[0]), pins[1..])
  }

  /** The trace stays between Capture-DR and Update-DR until its last setting, which updates. */
  ghost predicate IsScan(s: Tap, pins: seq<Pins>)
    requires s.drLength > 0
    decreases |pins|
  {
    && pins != [] && InDrColumn(s.state)
    && var t := SetPins(s, pins[0]);
       if |pins| == 1 then t.state == UpdateDr
       else LengthStays(s, pins[0]); IsScan(t, pins[1..])
  }

  predicate Shifts(s: Tap, p: Pins) { s.state == ShiftDr && Rises(s, p) }

  /** The data bits sampled at the rising edges in Shift-DR. */
  ghost function BitsIn(s: Tap, pins: seq<Pins>): seq<bool>
    requires s.drLength > 0
    decreases |pins|
  {
    if pins == [] then [] else
      LengthStays(s, pins[0]);
      (if Shifts(s, pins[0]) then [s.tdi] else []) + BitsIn(SetPins(s, pins[0]), pins[1..])
  }

  /** What the output pin shows just before each of those edges. */
  ghost function BitsOut(s: Tap, pins: seq<Pins>): seq<bool>
    requires s.drLength > 0
    decreases |pins|
  {
    if pins == [] then [] else
      LengthStays(s, pins[0]);
      (if Shifts(s, pins[0]) then [s.tdo] else []) + BitsOut(SetPins(s, pins[0]), pins[1..])
  }

  lemma {:induction false} AsManyOut(s: Tap, pins: seq<Pins>)
    requires s.drLength > 0
    ensures |BitsOut(s, pins)| == |BitsIn(s, pins)|
    decreases |pins|
  {
    hide SetPins;
    if pins != [] {
      LengthStays(s, pins[0]);
      AsManyOut(SetPins(s, pins[0]), pins[1..]);
    }
  }

  lemma PowersUsed()
    ensures Pow2(32) == 0x1_0000_0000 && Pow2(40) == 0x100_0000_0000
  {
    Pow2Eight(0);
    Pow2Eight(8);
    Pow2Eight(16);
    Pow2Eight(24);
    Pow2Eight(32);
  }

  /** A number of 40 bits is made of its three fields. */
  lemma WordOfFields(v: nat)
    requires v < 0x100_0000_0000
    ensures v == Word(Address(v), Payload(v), Op(v))
  {
    var w := v / 4;
    DivModUnique(v, 0x4_0000_0000, w / 0x1_0000_0000, v % 4 + 4 * (w % 0x1_0000_0000));
  }

  lemma FieldsOfWord(address: nat, data: nat, op: nat)
    requires address < 64 && data < 0x1_0000_0000 && op < 4
    ensures var v := Word(address, data, op);
      v < 0x100_0000_0000 && Address(v) == address && Payload(v) == data && Op(v) == op
  {
    var v := Word(address, data, op);
    DivModUnique(v, 4, data + 0x1_0000_0000 * address, op);
    DivModUnique(data + 0x1_0000_0000 * address, 0x1_0000_0000, address, data);
    DivModUnique(v, 0x4_0000_0000, address, op + 4 * data);
  }

  /** The answer that an update leaves for the next capture. */
  function Answer(dr: nat, reply: Reply): nat {
    var op := Op(dr);
    Word(Address(dr),
         if op == DMI_OP_READ && reply.ok then reply.value % 0x1_0000_0000 else Payload(dr),
         if (op == DMI_OP_READ || op == DMI_OP_WRITE) && !reply.ok then STATUS_FAILED else STATUS_SUCCESS)
  }

  /** The call that an update makes. */
  function CallsFor(ir: nat, dr: nat): seq<Call> {
    if ir != IR_DBUS then []
    else if Op(dr) == DMI_OP_READ then [Read(Address(dr))]
    else if Op(dr) == DMI_OP_WRITE then [Write(Address(dr), Payload(dr))]
    else []
  }

  lemma UpdatedIs(s: Tap, reply: Reply)
    requires s.ir == IR_DBUS ==> s.dr < 0x100_0000_0000
    ensures Updated(s, reply) ==
      s.(calls := s.calls + CallsFor(s.ir, s.dr), dmi := if s.ir == IR_DBUS then Answer(s.dr, reply) else s.dmi)
  {
    hide Op, Payload, Address;
    if s.ir == IR_DBUS { WordOfFields(s.dr); }
    assert s.calls + [] == s.calls;
  }

  lemma AnswerBound(dr: nat, reply: Reply)
    ensures Answer(dr, reply) < 0x100_0000_0000
  {
  }

  /** Every setting of the pins keeps the registers in range. */
  lemma ValidStep(s: Tap, p: Pins)
    requires Valid(s)
    ensures Valid(SetPins(s, p))
  {
    hide Updated, OrBit, Pow2;
    if Rises(s, p) { EdgeValid(s, p.reply); }
  }

  lemma EdgeValid(s: Tap, reply: Reply)
    requires Valid(s)
    ensures Valid(Edge(s, reply))
  {
    hide Op, Payload, Address, Answer, CallsFor, OrBit, Updated, Pow2, Captured;
    if s.state == ShiftDr {
      ShiftIn(s.dr, s.drLength, s.tdi);
    } else if Next(s.state, s.tms) == CaptureDr {
      CapturedValid(s.(state := CaptureDr));
    } else if Next(s.state, s.tms) == UpdateDr {
      PowersUsed();
      UpdatedIs(s.(state := UpdateDr), reply);
      AnswerBound(s.dr, reply);
    }
  }

  lemma CapturedValid(s: Tap)
    requires s.drLength > 0 && s.dr < Pow2(s.drLength) && s.dmi < 0x100_0000_0000 && s.state == CaptureDr
    ensures Valid(Captured(s))
  {
    hide Pow2;
    PowersUsed();
  }

  /** One step of a scan: a shift moves one bit out and one in, anything else leaves the register. */
  lemma ScanStep(s: Tap, p: Pins)
    requires Valid(s) && InDrColumn(s.state)
    ensures var t := SetPins(s, p);
      && t.ir == s.ir && t.drLength == s.drLength
      && (if Shifts(s, p) then 2 * t.dr + Bit(s.tdo) == s.dr + Times(Bit(s.tdi), Pow2(s.drLength)) else t.dr == s.dr)
      && (if t.state == UpdateDr
          then t.calls == s.calls + CallsFor(s.ir, t.dr) && (s.ir == IR_DBUS ==> t.dmi == Answer(t.dr, p.reply))
          else t.calls == s.calls && t.dmi == s.dmi)
  {
    hide Op, Payload, Address, Answer, CallsFor, OrBit, Updated, Pow2;
    PowersUsed();
    if Rises(s, p) {
      if s.state == ShiftDr { ShiftBalance(s.dr, s.drLength, s.tdi); }
      if Next(s.state, s.tms) == UpdateDr { UpdatedIs(s.(state := UpdateDr), p.reply); }
    }
  }

  lemma NoShiftIntoUpdate(s: Tap, p: Pins)
    requires s.drLength > 0 && InDrColumn(s.state) && SetPins(s, p).state == UpdateDr
    ensures !Shifts(s, p)
  {
    hide Captured, Updated, OrBit;
  }

  /** What is left of `before` after `ins` has gone in and `outs` has come out, when `p` is the
      weight of the bit above the register. */
  predicate Balanced(last: nat, before: nat, ins: seq<bool>, outs: seq<bool>, p: nat) {
    Times(last, Pow2(|ins|)) + Val(outs) == before + Times(Val(ins), p)
  }

  function Times(x: int, y: int): int { x * y }

  lemma UnmovedBalance(v: nat, p: nat)
    ensures Balanced(v, v, [], [], p)
  {
    assert Pow2(0) == 1 && Val([]) == 0;
  }

  lemma ShiftedBalance(before: nat, after: nat, last: nat, b: bool, o: bool, ins: seq<bool>, outs: seq<bool>, p: nat)
    requires 2 * after + Bit(o) == before + Times(Bit(b), p) && Balanced(last, after, ins, outs, p)
    ensures Balanced(last, before, [b] + ins, [o] + outs, p)
  {
    hide Times, Val, Pow2;
    ValFirst(b, ins);
    ValFirst(o, outs);
    Pow2Next(|ins|);
    Doubled(last, Pow2(|ins|));
    Distributed(Bit(b), Val(ins), p);
  }

  lemma ValFirst(b: bool, bits: seq<bool>)
    ensures Val([b] + bits) == Bit(b) + 2 * Val(bits)
  {
    assert ([b] + bits)[1..] == bits;
  }

  lemma Pow2Next(k: nat)
    ensures Pow2(k + 1) == 2 * Pow2(k)
  {
  }

  lemma Doubled(x: int, p: int)
    ensures Times(x, 2 * p) == 2 * Times(x, p)
  {
  }

  lemma Distributed(x: int, y: int, p: int)
    ensures Times(x + 2 * y, p) == Times(x, p) + 2 * Times(y, p)
  {
  }

  /** What is left in the register and what has come out make up what was captured and what has
      gone in, however the scan pauses. */
  lemma {:induction false} ScanBalance(s: Tap, pins: seq<Pins>)
    requires Valid(s) && IsScan(s, pins)
    ensures var r := Run(s, pins);
      && r.ir == s.ir && r.drLength == s.drLength
      && Balanced(r.dr, s.dr, BitsIn(s, pins), BitsOut(s, pins), Pow2(s.drLength))
      && r.calls == s.calls + CallsFor(s.ir, r.dr)
      && (s.ir == IR_DBUS ==> r.dmi == Answer(r.dr, pins[|pins| - 1].reply))
    decreases |pins|
  {
    assert s.drLength > 0 && InDrColumn(s.state);
    hide SetPins, Valid, CallsFor, Answer, Val, Pow2, Balanced, Times;
    var t, rest := SetPins(s, pins[0]), pins[1..];
    LengthStays(s, pins[0]);
    ScanStep(s, pins[0]);
    ValidStep(s, pins[0]);
    if |pins| == 1 {
      NoShiftIntoUpdate(s, pins[0]);
      UnmovedBalance(s.dr, Pow2(s.drLength));
    } else {
      ScanBalance(t, rest);
      assert rest[|rest| - 1] == pins[|pins| - 1];
      if Shifts(s, pins[0]) {
        ShiftedBalance(s.dr, t.dr, Run(t, rest).dr, s.tdi, s.tdo, BitsIn(t, rest), BitsOut(t, rest), Pow2(s.drLength));
      } else {
        assert [] + BitsIn(t, rest) == BitsIn(t, rest) && [] + BitsOut(t, rest) == BitsOut(t, rest);
      }
    }
  }

  /** A scan of exactly the register's length, with any number of pauses, puts out the captured
      register, least significant bit first, and leaves the bits that went in. */
  lemma FullScan(s: Tap, pins: seq<Pins>)
    requires Valid(s) && s.state == CaptureDr && IsScan(s, pins) && |BitsIn(s, pins)| == s.drLength
    ensures BitsOut(s, pins) == Bits(s.dr, s.drLength)
    ensures BitsIn(s, pins) == Bits(Run(s, pins).dr, s.drLength)
    ensures Val(BitsOut(s, pins)) == s.dr && |BitsOut(s, pins)| == s.drLength
    ensures Run(s, pins).dr == Val(BitsIn(s, pins))
  {
    hide SetPins, IsScan, BitsIn, BitsOut, Run, CallsFor, Answer, Bits;
    var r, p := Run(s, pins), Pow2(s.drLength);
    ScanBalance(s, pins);
    AsManyOut(s, pins);
    ValBound(BitsOut(s, pins));
    DivModUnique(r.dr * p + Val(BitsOut(s, pins)), p, r.dr, Val(BitsOut(s, pins)));
    DivModUnique(r.dr * p + Val(BitsOut(s, pins)), p, Val(BitsIn(s, pins)), s.dr);
    BitsFromVal(BitsOut(s, pins), s.dr, s.drLength);
    BitsFromVal(BitsIn(s, pins), r.dr, s.drLength);
  }

  /** The bit seen before the `k`-th shift is bit `k` of the captured register. */
  lemma {:induction false} BitOfVal(bits: seq<bool>, k: nat)
    requires k < |bits|
    ensures bits[k] == ((Val(bits) / Pow2(k)) % 2 == 1)
  {
    if k > 0 {
      BitOfVal(bits[1..], k - 1);
      assert bits[1..][k - 1] == bits[k];
      HalfVal(bits);
      PowStep(k);
      hide *;
      HalfThenShift(Val(bits), Pow2(k - 1));
    } else {
      LowVal(bits);
    }
  }

  lemma HalfVal(bits: seq<bool>)
    requires bits != []
    ensures Val(bits) / 2 == Val(bits[1..])
  {
  }

  lemma LowVal(bits: seq<bool>)
    requires bits != []
    ensures bits[0] == ((Val(bits) / Pow2(0)) % 2 == 1)
  {
    assert Pow2(0) == 1 && Val(bits) == Bit(bits[0]) + 2 * Val(bits[1..]);
    hide Val, Pow2;
    assert Val(bits) / 1 == Val(bits);
  }

  lemma PowStep(k: nat)
    requires k > 0
    ensures Pow2(k) == 2 * Pow2(k - 1)
  {
  }

  lemma HalfThenShift(v: nat, p: nat)
    requires p > 0
    ensures v / (2 * p) == (v / 2) / p
  {
    var q, r := (v / 2) / p, (v / 2) % p;
    Doubled(q, p);
    DivModUnique(v, 2 * p, q, 2 * r + v % 2);
  }

  lemma OutputBit(s: Tap, pins: seq<Pins>, k: nat)
    requires Valid(s) && s.state == CaptureDr && IsScan(s, pins) && |BitsIn(s, pins)| == s.drLength
    requires k < s.drLength
    ensures |BitsOut(s, pins)| == s.drLength && BitsOut(s, pins)[k] == ((s.dr / Pow2(k)) % 2 == 1)
  {
    hide SetPins, IsScan, BitsIn, BitsOut, Run, Valid, Val;
    FullScan(s, pins);
    BitOfVal(BitsOut(s, pins), k);
  }

  /** A scan of a request into the DBUS register calls the debug module once, with exactly the
      fields of the request, and leaves the answer to be captured by the next scan. */
  lemma DmiScan(s: Tap, pins: seq<Pins>, address: nat, data: nat, op: nat)
    requires Valid(s) && s.state == CaptureDr && s.ir == IR_DBUS && IsScan(s, pins)
    requires |BitsIn(s, pins)| == 40 && Val(BitsIn(s, pins)) == Word(address, data, op)
    requires address < 64 && data < 0x1_0000_0000 && op < 4
    ensures var r, reply := Run(s, pins), pins[|pins| - 1].reply;
      && r.calls == (if op == DMI_OP_READ then s.calls + [Read(address)]
                     else if op == DMI_OP_WRITE then s.calls + [Write(address, data)]
                     else s.calls)
      && r.dmi == Word(address,
                       if op == DMI_OP_READ && reply.ok then reply.value % 0x1_0000_0000 else data,
                       if (op == DMI_OP_READ || op == DMI_OP_WRITE) && !reply.ok then STATUS_FAILED else STATUS_SUCCESS)
  {
    hide SetPins, IsScan, BitsIn, BitsOut, Run, Op, Payload, Address, Word, Val;
    FullScan(s, pins);
    ScanBalance(s, pins);
    FieldsOfWord(address, data, op);
  }

  // ---------------------------------------------------------------------------------------
  // A scan of the instruction register, and a whole request

  predicate InIrColumn(s: State) {
    s == CaptureIr || s == ShiftIr || s == Exit1Ir || s == PauseIr || s == Exit2Ir
  }

  /** The trace stays between Capture-IR and Update-IR until its last setting, which updates. */
  ghost predicate IsIrScan(s: Tap, pins: seq<Pins>)
    requires s.drLength > 0
    decreases |pins|
  {
    && pins != [] && InIrColumn(s.state)
    && var t := SetPins(s, pins[0]);
       if |pins| == 1 then t.state == UpdateIr
       else LengthStays(s, pins[0]); IsIrScan(t, pins[1..])
  }

  predicate ShiftsIr(s: Tap, p: Pins) { s.state == ShiftIr && Rises(s, p) }

  /** The data bits sampled at the rising edges in Shift-IR. */
  ghost function IrBitsIn(s: Tap, pins: seq<Pins>): seq<bool>
    requires s.drLength > 0
    decreases |pins|
  {
    if pins == [] then [] else
      LengthStays(s, pins[0]);
      (if ShiftsIr(s, pins[0]) then [s.tdi] else []) + IrBitsIn(SetPins(s, pins[0]), pins[1..])
  }

  /** The bits that leave the instruction register. */
  ghost function IrBitsOut(s: Tap, pins: seq<Pins>): (r: seq<bool>)
    requires s.drLength > 0
    ensures |r| == |IrBitsIn(s, pins)|
    decreases |pins|
  {
    if pins == [] then [] else
      LengthStays(s, pins[0]);
      (if ShiftsIr(s, pins[0]) then [s.ir % 2 == 1] else []) + IrBitsOut(SetPins(s, pins[0]), pins[1..])
  }

  /** Every setting of the pins keeps the instruction register within its five bits. */
  lemma IrStays(s: Tap, p: Pins)
    requires s.drLength > 0 && s.ir < Pow2(IR_LENGTH)
    ensures SetPins(s, p).ir < Pow2(IR_LENGTH)
  {
    hide Pow2, Updated, OrBit;
    FiveBits();
    if s.state == ShiftIr { ShiftIn(s.ir, IR_LENGTH, s.tdi); }
    UpdateKeepsIr(Shifted(s).(state := Next(s.state, s.tms)), p.reply);
  }

  lemma FiveBits()
    ensures Pow2(IR_LENGTH) == 32
  {
    assert Pow2(0) == 1 && Pow2(1) == 2 && Pow2(2) == 4 && Pow2(3) == 8 && Pow2(4) == 16;
  }

  lemma UpdateKeepsIr(s: Tap, reply: Reply)
    ensures Updated(s, reply).ir == s.ir
  {
    hide Op, Payload, Address;
  }

  /** One step: a shift moves one bit out and one in, and nothing else changes but the state. */
  lemma IrScanStep(s: Tap, p: Pins)
    requires s.drLength > 0 && s.ir < Pow2(IR_LENGTH) && InIrColumn(s.state)
    ensures var t := SetPins(s, p);
      && t.dr == s.dr && t.drLength == s.drLength && t.dmi == s.dmi && t.calls == s.calls
      && (if ShiftsIr(s, p) then 2 * t.ir + Bit(s.ir % 2 == 1) == s.ir + Times(Bit(s.tdi), Pow2(IR_LENGTH))
          else t.ir == s.ir)
  {
    hide OrBit, Pow2, Captured, Updated;
    if s.state == ShiftIr { ShiftBalance(s.ir, IR_LENGTH, s.tdi); }
  }

  lemma NoShiftIntoIrUpdate(s: Tap, p: Pins)
    requires s.drLength > 0 && InIrColumn(s.state) && SetPins(s, p).state == UpdateIr
    ensures !ShiftsIr(s, p)
  {
    hide Captured, Updated, OrBit;
  }

  lemma {:induction false} IrBalance(s: Tap, pins: seq<Pins>)
    requires s.drLength > 0 && s.ir < Pow2(IR_LENGTH) && IsIrScan(s, pins)
    ensures var r := Run(s, pins);
      && r.state == UpdateIr && r.ir < Pow2(IR_LENGTH)
      && r.dr == s.dr && r.drLength == s.drLength && r.dmi == s.dmi && r.calls == s.calls
      && Balanced(r.ir, s.ir, IrBitsIn(s, pins), IrBitsOut(s, pins), Pow2(IR_LENGTH))
    decreases |pins|
  {
    assert InIrColumn(s.state);
    hide SetPins, Val, Pow2, Balanced, Times;
    var t, rest := SetPins(s, pins[0]), pins[1..];
    LengthStays(s, pins[0]);
    IrScanStep(s, pins[0]);
    IrStays(s, pins[0]);
    if |pins| == 1 {
      assert Run(t, rest) == t;
      NoShiftIntoIrUpdate(s, pins[0]);
      UnmovedBalance(s.ir, Pow2(IR_LENGTH));
    } else {
      IrBalance(t, rest);
      if ShiftsIr(s, pins[0]) {
        ShiftedBalance(s.ir, t.ir, Run(t, rest).ir, s.tdi, s.ir % 2 == 1, IrBitsIn(t, rest), IrBitsOut(t, rest),
                       Pow2(IR_LENGTH));
      } else {
        assert [] + IrBitsIn(t, rest) == IrBitsIn(t, rest) && [] + IrBitsOut(t, rest) == IrBitsOut(t, rest);
      }
    }
  }

  /** A scan of exactly five bits, with any number of pauses, leaves the bits that went in, and the
      data register and the debug module alone. */
  lemma FullIrScan(s: Tap, pins: seq<Pins>)
    requires s.drLength > 0 && s.ir < Pow2(IR_LENGTH) && s.state == CaptureIr && IsIrScan(s, pins)
    requires |IrBitsIn(s, pins)| == IR_LENGTH
    ensures var r := Run(s, pins);
      && r.state == UpdateIr && r.ir == Val(IrBitsIn(s, pins))
      && r.dr == s.dr && r.drLength == s.drLength && r.dmi == s.dmi && r.calls == s.calls
  {
    hide SetPins, IsIrScan, IrBitsIn, IrBitsOut, Run;
    var r, p := Run(s, pins), Pow2(IR_LENGTH);
    IrBalance(s, pins);
    ValBound(IrBitsOut(s, pins));
    DivModUnique(r.ir * p + Val(IrBitsOut(s, pins)), p, r.ir, Val(IrBitsOut(s, pins)));
    DivModUnique(r.ir * p + Val(IrBitsOut(s, pins)), p, Val(IrBitsIn(s, pins)), s.ir);
  }

  predicate OnTheWay(s: State) { s == UpdateIr || s == RunTestIdle || s == SelectDrScan }

  /** From the update of the instruction register, by way of Run-Test/Idle or not, to Capture-DR. */
  ghost predicate IsWalk(s: Tap, pins: seq<Pins>)
    requires s.drLength > 0
    decreases |pins|
  {
    && pins != [] && OnTheWay(s.state)
    && var t := SetPins(s, pins[0]);
       if |pins| == 1 then t.state == CaptureDr
       else LengthStays(s, pins[0]); IsWalk(t, pins[1..])
  }

  lemma WalkStep(s: Tap, p: Pins)
    requires s.drLength > 0 && OnTheWay(s.state)
    ensures var t := SetPins(s, p);
      && t.ir == s.ir && t.dmi == s.dmi && t.calls == s.calls
      && (t.state == CaptureDr && s.ir == IR_DBUS ==> t.dr == s.dmi && t.drLength == 40)
  {
    hide Updated, OrBit;
  }

  /** With the debug module selected its answer is captured. */
  lemma {:induction false} Walked(s: Tap, pins: seq<Pins>)
    requires Valid(s) && s.ir == IR_DBUS && IsWalk(s, pins)
    ensures var r := Run(s, pins);
      && Valid(r) && r.state == CaptureDr && r.ir == IR_DBUS && r.calls == s.calls && r.dmi == s.dmi
      && r.dr == s.dmi && r.drLength == 40
    decreases |pins|
  {
    assert s.drLength > 0 && OnTheWay(s.state);
    hide SetPins, Valid;
    var t := SetPins(s, pins[0]);
    LengthStays(s, pins[0]);
    WalkStep(s, pins[0]);
    ValidStep(s, pins[0]);
    if |pins| == 1 {
      assert Run(t, pins[1..]) == t;
    } else {
      Walked(t, pins[1..]);
    }
  }

  lemma {:induction false} RunJoins(s: Tap, a: seq<Pins>, b: seq<Pins>)
    requires s.drLength > 0
    ensures Run(s, a + b) == Run(Run(s, a), b)
    decreases |a|
  {
    hide SetPins;
    if a == [] {
      assert a + b == b;
    } else {
      LengthStays(s, a[0]);
      assert (a + b)[0] == a[0] && (a + b)[1..] == a[1..] + b;
      RunJoins(SetPins(s, a[0]), a[1..], b);
    }
  }

  lemma {:induction false} ValidRun(s: Tap, pins: seq<Pins>)
    requires Valid(s)
    ensures Valid(Run(s, pins))
    decreases |pins|
  {
    assert s.drLength > 0;
    hide SetPins, Valid;
    if pins != [] {
      ValidStep(s, pins[0]);
      LengthStays(s, pins[0]);
      ValidRun(SetPins(s, pins[0]), pins[1..]);
    }
  }

  /** A whole request by way of the pins, whatever the instruction before: a scan of the debug
      module's number into the instruction register, and a scan of the request into the data register.
      It puts out the answer to the request before, calls the debug module once, with exactly the
      fields of the request, and leaves the answer for the next. */
  lemma Request(s: Tap, select: seq<Pins>, walk: seq<Pins>, scan: seq<Pins>, address: nat, data: nat, op: nat)
    requires Valid(s) && s.ir < Pow2(IR_LENGTH) && s.state == CaptureIr
    requires IsIrScan(s, select) && |IrBitsIn(s, select)| == IR_LENGTH && Val(IrBitsIn(s, select)) == IR_DBUS
    requires IsWalk(Run(s, select), walk)
    requires IsScan(Run(Run(s, select), walk), scan)
    requires |BitsIn(Run(Run(s, select), walk), scan)| == 40
    requires Val(BitsIn(Run(Run(s, select), walk), scan)) == Word(address, data, op)
    requires address < 64 && data < 0x1_0000_0000 && op < 4
    ensures BitsOut(Run(Run(s, select), walk), scan) == Bits(s.dmi, 40)
    ensures var r, reply := Run(s, select + walk + scan), scan[|scan| - 1].reply;
      && r.calls == s.calls + CallsFor(IR_DBUS, Word(address, data, op))
      && r.dmi == Answer(Word(address, data, op), reply)
  {
    hide SetPins, IsScan, IsIrScan, IsWalk, BitsIn, BitsOut, IrBitsIn, Run, Val, Word, Answer, CallsFor, Bits, Pow2;
    FullIrScan(s, select);
    ValidRun(s, select);
    var t := Run(s, select);
    Walked(t, walk);
    var u := Run(t, walk);
    FullScan(u, scan);
    ScanBalance(u, scan);
    RunJoins(s, select, walk);
    RunJoins(s, select + walk, scan);
  }

  // ---------------------------------------------------------------------------------------
  // The port as an object

  class Port {
    var tck: bool
    var tms: bool
    var tdi: bool
    var tdo: bool
    var ir: nat
    var dr: nat
    var drLength: nat
    var dmi: nat
    var state: State
    var calls: seq<Call>

    ghost function Now(): Tap
      reads this
    {
      Tap(tck, tms, tdi, tdo, ir, dr, drLength, dmi, state, calls)
    }

    /** The source leaves `ir`, `dr` and `dr_length` unset; here they are whatever the caller says. */
    constructor (ir: nat, dr: nat, drLength: nat)
      ensures Now() == Tap(false, false, false, false, ir, dr, drLength, 0, TestLogicReset, [])
    {
      tck, tms, tdi, tdo := false, false, false, false;
      this.ir, this.dr, this.drLength := ir, dr, drLength;
      dmi, state, calls := 0, TestLogicReset, [];
    }

    method Set(newTck: bool, newTms: bool, newTdi: bool, reply: Reply)
      requires drLength > 0
      modifies this
      ensures Now() == SetPins(old(Now()), Pins(newTck, newTms, newTdi, reply))
    {
      hide Edge;
      if !tck && newTck {
        Rise(reply);
      }
      tck, tms, tdi := newTck, newTms, newTdi;
    }

    method Rise(reply: Reply)
      requires drLength > 0
      modifies this
      ensures Now() == Edge(old(Now()), reply)
    {
      hide Entered, OrBit, Next;
      if state == ShiftDr {
        dr := OrBit(dr / 2, drLength - 1, tdi);
      } else if state == ShiftIr {
        ir := OrBit(ir / 2, IR_LENGTH - 1, tdi);
      }
      state := Next(state, tms);
      Enter(reply);
    }

    method Enter(reply: Reply)
      modifies this
      ensures Now() == Entered(old(Now()), reply)
    {
      hide Captured, Updated;
      match state {
        case TestLogicReset => ir := IR_IDCODE;
        case CaptureDr => Capture();
        case ShiftDr => tdo := dr % 2 == 1;
        case UpdateDr => Update(reply);
        case ShiftIr => tdo := ir % 2 == 1;
        case _ =>
      }
    }

    method Capture()
      modifies this`dr, this`drLength
      ensures Now() == Captured(old(Now()))
    {
      if ir == IR_IDCODE {
        dr, drLength := IDCODE, 32;
      } else if ir == IR_DTMCONTROL {
        dr, drLength := DTMCONTROL, 32;
      } else if ir == IR_DBUS {
        dr, drLength := dmi, ABITS + 34;
      }
    }

    method Update(reply: Reply)
      modifies this`dmi, this`calls
      ensures Now() == Updated(old(Now()), reply)
    {
      hide Op, Payload, Address;
      if ir == IR_DBUS {
        var op, data, address := Op(dr), Payload(dr), Address(dr);
        OpBound(dr);
        dmi := dr;
        var success := true;
        if op == DMI_OP_READ {
          calls := calls + [Read(address)];
          if reply.ok {
            dmi := dmi + 4 * (reply.value % 0x1_0000_0000 - data);
          } else {
            success := false;
          }
        } else if op == DMI_OP_WRITE {
          calls := calls + [Write(address, data)];
          success := reply.ok;
        }
        dmi := if success then dmi - op + STATUS_SUCCESS else dmi - op + STATUS_FAILED;
      }
    }
  }

  lemma OpBound(v: nat)
    ensures Op(v) <= v && 4 * Payload(v) + Op(v) <= v
  {
    var w := v / 4;
    assert w % 0x1_0000_0000 <= w;
  }
}
