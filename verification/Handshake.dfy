/** The debugger and the harts, interleaved: any number of harts run the debug ROM's loop, one
    memory access per step, while the debugger reads and writes the debug module, selects harts and
    resets them or the module. */
module Handshake {
  import opened DebugModule
  import opened AbstractCommand
  import opened Bytes

  /** What a hart does next.
      `Running`: its own program. `AtHalted`: store to HALTED; `returning` if it has executed
      abstract code since its last such store. `AtGo`, `AtResume`: poll a flag. `AtGoing`: store to
      GOING and jump to the abstract code. `Executing`: that code, or the program buffer.
      `AtException`: store to EXCEPTION. `AtResuming`: store to RESUMING and leave. */
  datatype Pc =
    | Running | AtHalted(returning: bool) | AtGo | AtResume | AtGoing | Executing | AtException | AtResuming

  /** `accepted` and `executed` record the abstract code of each accepted command, and of each
      jump to the abstract code. */
  datatype World = World(dm: Dm, harts: seq<Pc>, accepted: seq<seq<bv8>>, executed: seq<seq<bv8>>)

  /** What an unconstrained hart may do: enter debug mode, go on, store to the data area or to the
      program buffer, reach an `ebreak`, or trap. */
  datatype Choice =
    | Halt | Continue | Break | Fault
    | PutData(offset: nat, bytes: seq<bv8>) | PutProgbuf(offset: nat, bytes: seq<bv8>)

  datatype Event =
    | Write(address: nat, value: bv32, random: bv32)
    | Read(address: nat, bus: bv32)
    | HartStep(h: nat, choice: Choice)

  /** Every write and read of the debugger is allowed, but for disorderly writes to `dmcontrol`. */
  ghost predicate Enabled(w: World, e: Event) {
    Sized(w.dm) && w.dm.nprocs == |w.harts| &&
    match e
    case Write(address, value, random) => address == DMI_DMCONTROL ==> Orderly(w, value, random)
    case Read(_, _) => true
    case HartStep(h, choice) =>
      && h < |w.harts|
      && (choice.PutData? ==> choice.offset + |choice.bytes| <= |w.dm.data|)
      && (choice.PutProgbuf? ==> choice.offset + |choice.bytes| <= |w.dm.progbuf|)
  }

  /** The write to `dmcontrol` finds the module inactive and activates it, which resets it. */
  predicate Activates(s: Dm, value: bv32) { !s.control.dmactive && Bit(value, 0) }

  /** The write to `dmcontrol` resets hart `h`. */
  predicate Resets(s: Dm, value: bv32, random: bv32, h: nat)
    requires Sized(s)
  {
    var t := Activated(s, value, random);
    t.authenticated && h < t.nprocs &&
    var u := Fields(t, value);
    (u.control.hartreset && h == u.hartsel) || u.control.ndmreset
  }

  /** A hart that is reset leaves the debug ROM. */
  function ControlNext(w: World, value: bv32, random: bv32): World
    requires Sized(w.dm)
  {
    w.(dm := WriteControl(w.dm, value, random),
       harts := seq(|w.harts|, h requires 0 <= h < |w.harts| =>
                  if Resets(w.dm, value, random, h) then Running else w.harts[h]))
  }

  /** The write to `dmcontrol` does not disturb a command that is outstanding. While one is, the
      module must not be reset and the hart must stay selected; but if the hart that is executing is
      itself reset, the module has to be. */
  predicate Orderly(w: World, value: bv32, random: bv32)
    requires Sized(w.dm)
  {
    var s := w.dm;
    s.busy ==>
      if !Go(s.flags[s.hartsel]) && Resets(s, value, random, s.hartsel) then Activates(s, value)
      else !Activates(s, value) && (s.authenticated && Bit(value, 0) ==> HartSelected(value) == s.hartsel)
  }

  /** A command has been accepted when GO goes up. */
  predicate Launched(before: Dm, after: Dm)
    requires |before.flags| == |after.flags| == MAX_HARTS && before.hartsel == after.hartsel < MAX_HARTS
  {
    !before.busy && after.busy
  }

  function Debugger(w: World, dm: Dm): World
    requires Sized(w.dm) && Sized(dm) && dm.hartsel == w.dm.hartsel
  {
    w.(dm := dm, accepted := if Launched(w.dm, dm) then w.accepted + [dm.code] else w.accepted)
  }

  function Moved(w: World, h: nat, pc: Pc): World
    requires h < |w.harts|
  {
    w.(harts := w.harts[h := pc])
  }

  function HartNext(w: World, h: nat, choice: Choice): World
    requires Enabled(w, HartStep(h, choice))
  {
    match w.harts[h]
    case Running => if choice == Halt then Moved(w, h, AtHalted(false)) else w
    case AtHalted(_) => Moved(w, h, AtGo).(dm := StoreHalted(w.dm, h))
    case AtGo => Moved(w, h, if Go(w.dm.flags[h]) then AtGoing else AtResume)
    case AtResume => Moved(w, h, if Resume(w.dm.flags[h]) then AtResuming else AtHalted(false))
    case AtGoing =>
      Moved(w, h, Executing).(dm := StoreGoing(w.dm), executed := w.executed + [w.dm.code])
    case Executing =>
      (match choice
       case PutData(offset, bytes) => w.(dm := w.dm.(data := Overwrite(w.dm.data, offset, bytes)))
       case PutProgbuf(offset, bytes) => w.(dm := w.dm.(progbuf := Overwrite(w.dm.progbuf, offset, bytes)))
       case Break => Moved(w, h, AtHalted(true))
       case Fault => Moved(w, h, AtException)
       case _ => w)
    case AtException => Moved(w, h, AtHalted(true)).(dm := StoreException(w.dm))
    case AtResuming => Moved(w, h, Running).(dm := StoreResuming(w.dm, h))
  }

  ghost function Step(w: World, e: Event): World
    requires Enabled(w, e)
  {
    match e
    case Write(address, value, random) =>
      if address == DMI_DMCONTROL then ControlNext(w, value, random)
      else WriteSized(w.dm, address, value, random); Debugger(w, DmiWrite(w.dm, address, value, random).0)
    case Read(address, bus) => ReadSized(w.dm, address, bus); Debugger(w, DmiRead(w.dm, address, bus).0)
    case HartStep(h, choice) => HartNext(w, h, choice)
  }

  // ---------------------------------------------------------------------------------------
  // What the debugger's accesses can do

  /** The effect of any access, as far as the handshake is concerned: either a command was
      launched, from idle, for a halted hart; or neither GO nor `busy` changed. Nothing else can
      happen while busy: data, program buffer and abstract code stay as they are. */
  ghost predicate Effect(s: Dm, s': Dm)
    requires Sized(s)
  {
    && Sized(s') && s'.hartsel == s.hartsel && s'.nprocs == s.nprocs && s'.progbufsize == s.progbufsize
    && s'.halted == s.halted && Resume(s'.flags[s.hartsel]) == Resume(s.flags[s.hartsel])
    && (forall h :: 0 <= h < MAX_HARTS && h != s.hartsel ==> s'.flags[h] == s.flags[h])
    && (s.busy ==> s'.data == s.data && s'.progbuf == s.progbuf && s'.code == s.code)
    && (if !s.busy && s'.busy
        then s.halted[s.hartsel] && Go(s'.flags[s.hartsel])
        else s'.busy == s.busy && Go(s'.flags[s.hartsel]) == Go(s.flags[s.hartsel]))
  }

  /** Only registers that the handshake does not look at change. */
  lemma QuietEffect(s: Dm, s': Dm)
    requires Sized(s) && s' == s.(cmderr := s'.cmderr, command := s'.command, autoexecdata := s'.autoexecdata,
      autoexecprogbuf := s'.autoexecprogbuf, customBase := s'.customBase, authenticated := s'.authenticated,
      challenge := s'.challenge, control := s'.control)
    ensures Effect(s, s')
  {
    hide Go;
  }

  /** Memory changes too, while idle. */
  lemma IdleEffect(s: Dm, s': Dm)
    requires Sized(s) && Sized(s') && !s.busy
    requires s' == s.(data := s'.data, progbuf := s'.progbuf, code := s'.code, cmderr := s'.cmderr,
      command := s'.command, customBase := s'.customBase)
    ensures Effect(s, s')
  {
    hide Go;
  }

  lemma AcceptEffect(s: Dm, words: seq<bv32>)
    requires Sized(s) && |words| <= 5 && !s.busy && s.halted[s.hartsel]
    ensures Effect(s, Accept(s, words))
  {
    hide Go, SetGo, WriteAll;
    FlagBits(s.flags[s.hartsel]);
  }

  lemma ServeEffect(s: Dm)
    requires Sized(s) && !s.busy && s.halted[s.hartsel]
    ensures Effect(s, Serve(s))
  {
    hide Effect, Accept, Compile, ServeCustom, WriteAll;
    FitsInFiveWords(s.command, s.progbufsize);
    match Compile(s.command, s.progbufsize)
    case Launch(words) => AcceptEffect(s, words);
    case Failed(words, e) => IdleEffect(s, Serve(s));
    case Custom(n) => CustomEffect(s, n);
  }

  lemma CustomEffect(s: Dm, n: bv32)
    requires Sized(s) && !s.busy
    ensures Effect(s, ServeCustom(s, n))
  {
    hide Effect, ServeCustom, Sized;
    CustomShape(s, n);
    IdleEffect(s, ServeCustom(s, n));
  }

  lemma CustomShape(s: Dm, n: bv32)
    requires Sized(s)
    ensures var s' := ServeCustom(s, n); s' == s.(data := s'.data, customBase := s'.customBase) && |s'.data| == 8
    ensures Sized(ServeCustom(s, n))
  {
    hide Read32, Write32, Writes, Add, Minus;
  }

  lemma PerformEffect(s: Dm)
    requires Sized(s)
    ensures Effect(s, Perform(s))
  {
    hide Effect, Serve, CommandType;
    if s.cmderr != CMDERR_NONE {
      QuietEffect(s, s);
    } else if s.busy {
      QuietEffect(s, s.(cmderr := CMDERR_BUSY));
    } else if CommandType(s.command) != 0 {
      QuietEffect(s, s.(cmderr := CMDERR_NOTSUP));
    } else if !s.halted[s.hartsel] {
      QuietEffect(s, s.(cmderr := CMDERR_HALTRESUME));
    } else {
      ServeEffect(s);
    }
  }

  /** A register or a word of memory is written first, while idle. */
  lemma ThenPerform(s: Dm, t: Dm)
    requires Sized(s) && Sized(t) && !s.busy && t == s.(data := t.data, progbuf := t.progbuf)
    ensures Effect(s, Perform(t)) && Effect(s, t)
  {
    hide Perform, Go;
    PerformEffect(t);
  }

  lemma CommandEffect(s: Dm, value: bv32)
    requires Sized(s)
    ensures Effect(s, Perform(s.(command := value)))
  {
    hide Perform, Go;
    PerformEffect(s.(command := value));
  }

  lemma WriteDataEffect(s: Dm, i: nat, value: bv32)
    requires Sized(s) && i < 2
    ensures Effect(s, WriteData(s, i, value))
  {
    hide Perform, Effect, AutoExec, Write32;
    if s.busy {
      QuietEffect(s, WriteData(s, i, value));
    } else {
      ThenPerform(s, s.(data := Write32(s.data, i, value)));
    }
  }

  lemma WriteProgbufEffect(s: Dm, i: nat, value: bv32)
    requires Sized(s) && i < s.progbufsize
    ensures Effect(s, WriteProgbuf(s, i, value))
  {
    hide Perform, Effect, AutoExec, Write32;
    if s.busy { QuietEffect(s, s); } else { ThenPerform(s, s.(progbuf := Write32(s.progbuf, i, value))); }
  }

  lemma AuthenticateEffect(s: Dm, value: bv32, random: bv32)
    requires Sized(s)
    ensures Effect(s, Authenticate(s, value, random))
  {
    hide Effect, Add, Sized;
    if !s.requireAuthentication {
      QuietEffect(s, s);
    } else if value == Add(s.challenge, 1) {
      QuietEffect(s, s.(authenticated := true));
    } else {
      QuietEffect(s, s.(authenticated := false, challenge := random));
    }
  }

  lemma RegisterEffect(s: Dm, address: nat, value: bv32, random: bv32)
    requires Sized(s) && (address == DMI_ABSTRACTCS || address == DMI_ABSTRACTAUTO)
    ensures Effect(s, DmiWrite(s, address, value, random).0)
  {
    hide Perform, Effect, WriteData, WriteProgbuf, WriteControl, Authenticate, Sized, ClearedBy, AutoProgbuf, AutoData;
    if address == DMI_ABSTRACTCS {
      QuietEffect(s, s.(cmderr := ClearedBy(s.cmderr, value)));
    } else {
      QuietEffect(s, s.(autoexecprogbuf := AutoProgbuf(value), autoexecdata := AutoData(value)));
    }
    QuietEffect(s, s);
  }

  lemma WriteSized(s: Dm, address: nat, value: bv32, random: bv32)
    requires Sized(s) && address != DMI_DMCONTROL
    ensures Effect(s, DmiWrite(s, address, value, random).0)
  {
    hide Perform, Effect, WriteData, WriteProgbuf, WriteControl, Authenticate;
    QuietEffect(s, s);
    if !s.authenticated && address != DMI_AUTHDATA {
    } else if IsData(address) {
      WriteDataEffect(s, address - DMI_DATA0, value);
    } else if IsProgbuf(s, address) {
      WriteProgbufEffect(s, address - DMI_PROGBUF0, value);
    } else if address == DMI_COMMAND {
      CommandEffect(s, value);
    } else if address == DMI_AUTHDATA {
      AuthenticateEffect(s, value, random);
    } else if address == DMI_ABSTRACTCS || address == DMI_ABSTRACTAUTO {
      RegisterEffect(s, address, value, random);
    }
  }

  lemma ReadSized(s: Dm, address: nat, bus: bv32)
    requires Sized(s)
    ensures Effect(s, DmiRead(s, address, bus).0)
  {
    hide Perform, Effect, AutoExec, Read32, ControlWord, StatusWord, AbstractWord, AutoWord, Asked, Sized;
    QuietEffect(s, s);
    if s.busy && IsData(address) {
      QuietEffect(s, s.(cmderr := if s.cmderr == CMDERR_NONE then CMDERR_BUSY else s.cmderr));
    } else if IsData(address) || IsProgbuf(s, address) {
      PerformEffect(s);
    } else if address == DMI_DMCONTROL {
      QuietEffect(s, s.(control := Asked(s)));
    }
  }

  // ---------------------------------------------------------------------------------------
  // Invariant

  /** From the store to GOING up to the next store to HALTED. */
  predicate Between(pc: Pc) { pc == Executing || pc == AtException || pc == AtHalted(true) }

  function SelectedPc(w: World): Pc {
    if w.dm.hartsel < |w.harts| then w.harts[w.dm.hartsel] else Running
  }

  /** `halted` tells the truth, but for a hart about to store to HALTED for the first time; and
      only the selected hart executes anything. */
  predicate HartOk(pc: Pc, halted: bool, selected: bool) {
    && (halted ==> pc != Running)
    && (!halted ==> pc == Running || pc == AtHalted(false))
    && (!selected ==> pc != AtGoing && !Between(pc))
  }

  ghost predicate HartsOk(w: World)
    requires Sized(w.dm)
  {
    && w.dm.nprocs == |w.harts|
    && (forall h :: 0 <= h < |w.harts| ==> HartOk(w.harts[h], w.dm.halted[h], h == w.dm.hartsel))
    && (forall h :: |w.harts| <= h < MAX_HARTS ==> !w.dm.halted[h])
    && (forall h :: 0 <= h < MAX_HARTS && (h != w.dm.hartsel || |w.harts| <= h) ==> !Go(w.dm.flags[h]))
  }

  /** The handshake with the selected hart. `busy` holds exactly when GO is up or the hart is
      between its store to GOING and the next to HALTED; every accepted command has been executed
      once, in order, except that one may be waiting for GO to be seen; and what is being executed
      is still there. */
  ghost predicate HandshakeOk(dm: Dm, pc: Pc, accepted: seq<seq<bv8>>, executed: seq<seq<bv8>>)
    requires Sized(dm)
  {
    var go := Go(dm.flags[dm.hartsel]);
    && dm.busy == (go || Between(pc))
    && !(go && Between(pc))
    && (pc == AtGoing ==> go)
    && accepted == (if go then executed + [dm.code] else executed)
    && (Between(pc) ==> |executed| > 0 && executed[|executed| - 1] == dm.code)
  }

  ghost predicate Inv(w: World) {
    Sized(w.dm) && HartsOk(w) && HandshakeOk(w.dm, SelectedPc(w), w.accepted, w.executed)
  }

  lemma DebuggerKeeps(w: World, dm: Dm)
    requires Inv(w) && Effect(w.dm, dm)
    ensures Inv(Debugger(w, dm))
  {
    hide Go;
    var s := w.dm;
    assert HartsOk(Debugger(w, dm));
    if s.hartsel >= |w.harts| { assert !s.halted[s.hartsel]; }
  }

  /** A hart changes its place and nothing else. */
  lemma MoveKeeps(w: World, h: nat, pc: Pc)
    requires Inv(w) && h < |w.harts|
    requires HartOk(pc, w.dm.halted[h], h == w.dm.hartsel)
    requires Between(pc) == Between(w.harts[h]) && (pc == AtGoing ==> Go(w.dm.flags[h]))
    ensures Inv(Moved(w, h, pc))
  {
    hide Go;
    assert HartOk(w.harts[h], w.dm.halted[h], h == w.dm.hartsel);
  }

  lemma HaltedKeeps(w: World, h: nat)
    requires Inv(w) && h < |w.harts| && w.harts[h].AtHalted?
    ensures Inv(Moved(w, h, AtGo).(dm := StoreHalted(w.dm, h)))
  {
    hide Go;
    assert HartOk(w.harts[h], w.dm.halted[h], h == w.dm.hartsel);
  }

  lemma GoingKeeps(w: World, h: nat)
    requires Inv(w) && h < |w.harts| && w.harts[h] == AtGoing
    ensures Inv(Moved(w, h, Executing).(dm := StoreGoing(w.dm), executed := w.executed + [w.dm.code]))
  {
    hide Go, ClearGo;
    assert HartOk(w.harts[h], w.dm.halted[h], h == w.dm.hartsel);
    FlagBits(w.dm.flags[h]);
  }

  lemma ResumingKeeps(w: World, h: nat)
    requires Inv(w) && h < |w.harts| && w.harts[h] == AtResuming
    ensures Inv(Moved(w, h, Running).(dm := StoreResuming(w.dm, h)))
  {
    hide Go, ClearResume;
    assert HartOk(w.harts[h], w.dm.halted[h], h == w.dm.hartsel);
    FlagBits(w.dm.flags[h]);
  }

  /** Executing code may write the data area and the program buffer, and raise an error. */
  lemma ExecutingKeeps(w: World, dm: Dm)
    requires Inv(w) && Sized(dm) && dm == w.dm.(data := dm.data, progbuf := dm.progbuf, cmderr := dm.cmderr)
    ensures Inv(w.(dm := dm))
  {
    hide Go;
  }

  lemma ExecuteKeeps(w: World, h: nat, choice: Choice)
    requires Inv(w) && Enabled(w, HartStep(h, choice)) && w.harts[h] == Executing
    ensures Inv(HartNext(w, h, choice))
  {
    assert HartOk(w.harts[h], w.dm.halted[h], h == w.dm.hartsel);
    hide Go, Inv, Overwrite;
    match choice
    case PutData(_, _) => ExecutingKeeps(w, HartNext(w, h, choice).dm);
    case PutProgbuf(_, _) => ExecutingKeeps(w, HartNext(w, h, choice).dm);
    case Break => MoveKeeps(w, h, AtHalted(true));
    case Fault => MoveKeeps(w, h, AtException);
    case _ =>
  }

  lemma ExceptionKeeps(w: World, h: nat)
    requires Inv(w) && h < |w.harts| && w.harts[h] == AtException
    ensures Inv(Moved(w, h, AtHalted(true)).(dm := StoreException(w.dm)))
  {
    assert HartOk(w.harts[h], w.dm.halted[h], h == w.dm.hartsel);
    hide Go, Inv;
    MoveKeeps(w, h, AtHalted(true));
    ExecutingKeeps(Moved(w, h, AtHalted(true)), StoreException(w.dm));
  }

  lemma PollKeeps(w: World, h: nat, choice: Choice)
    requires Inv(w) && Enabled(w, HartStep(h, choice))
    requires w.harts[h] == Running || w.harts[h] == AtGo || w.harts[h] == AtResume
    ensures Inv(HartNext(w, h, choice))
  {
    assert HartOk(w.harts[h], w.dm.halted[h], h == w.dm.hartsel);
    hide Go, Resume, Inv;
    match w.harts[h]
    case Running => if choice == Halt { MoveKeeps(w, h, AtHalted(false)); }
    case AtGo => MoveKeeps(w, h, if Go(w.dm.flags[h]) then AtGoing else AtResume);
    case AtResume => MoveKeeps(w, h, if Resume(w.dm.flags[h]) then AtResuming else AtHalted(false));
  }

  lemma HartKeeps(w: World, h: nat, choice: Choice)
    requires Inv(w) && Enabled(w, HartStep(h, choice))
    ensures Inv(HartNext(w, h, choice))
  {
    hide Go, Resume, Inv, StoreHalted, StoreGoing, StoreResuming, StoreException, Overwrite;
    match w.harts[h]
    case AtHalted(_) => HaltedKeeps(w, h);
    case AtGoing => GoingKeeps(w, h);
    case Executing => ExecuteKeeps(w, h, choice);
    case AtException => ExceptionKeeps(w, h);
    case AtResuming => ResumingKeeps(w, h);
    case _ => PollKeeps(w, h, choice);
  }

  /** Every access of the debugger and every step of every hart keeps the invariant. */
  lemma InvStep(w: World, e: Event)
    requires Inv(w) && Enabled(w, e)
    ensures Inv(Step(w, e))
  {
    hide Inv, Effect, DmiWrite, DmiRead, HartNext, Debugger;
    match e
    case Write(address, value, random) =>
      if address == DMI_DMCONTROL {
        ControlKeeps(w, value, random);
      } else {
        WriteSized(w.dm, address, value, random);
        DebuggerKeeps(w, DmiWrite(w.dm, address, value, random).0);
      }
    case Read(address, bus) =>
      ReadSized(w.dm, address, bus);
      DebuggerKeeps(w, DmiRead(w.dm, address, bus).0);
    case HartStep(h, choice) => HartKeeps(w, h, choice);
  }

  // Writes to dmcontrol

  /** What a write to `dmcontrol` does to the handshake. */
  ghost predicate ControlEffect(s: Dm, t: Dm, value: bv32, random: bv32)
    requires Sized(s)
  {
    && Sized(t) && t.nprocs == s.nprocs && t.data == s.data && t.progbuf == s.progbuf && t.code == s.code
    && t.busy == (s.busy && !Activates(s, value))
    && (forall h :: 0 <= h < MAX_HARTS ==> t.halted[h] == (s.halted[h] && !Resets(s, value, random, h)))
    && (forall h :: 0 <= h < MAX_HARTS ==> Go(t.flags[h]) == Go(s.flags[h]))
  }

  /** One part of such a write, which resets the harts in `down`. */
  ghost predicate PartEffect(s: Dm, t: Dm, down: set<nat>)
    requires Sized(s)
  {
    && Sized(t) && t.nprocs == s.nprocs && t.data == s.data && t.progbuf == s.progbuf && t.code == s.code
    && (forall h :: 0 <= h < MAX_HARTS ==> t.halted[h] == (s.halted[h] && h !in down))
    && (forall h :: 0 <= h < MAX_HARTS ==> Go(t.flags[h]) == Go(s.flags[h]))
  }

  lemma ActivatedPart(s: Dm, value: bv32, random: bv32)
    requires Sized(s)
    ensures var t := Activated(s, value, random);
      PartEffect(s, t, {}) && t.busy == (s.busy && !Activates(s, value))
  {
    hide Bit, Go;
  }

  lemma FieldsPart(s: Dm, value: bv32)
    requires Sized(s)
    ensures PartEffect(s, Fields(s, value), {}) && Fields(s, value).busy == s.busy
  {
    hide Bit, Go, HartSelected;
  }

  lemma AskHaltPart(s: Dm)
    requires Sized(s)
    ensures PartEffect(s, AskHalt(s), {}) && AskHalt(s).busy == s.busy
  {
    hide Go;
  }

  lemma AskResumePart(s: Dm)
    requires Sized(s)
    ensures PartEffect(s, AskResume(s), {}) && AskResume(s).busy == s.busy
  {
    hide Go, SetResume;
    FlagBits(s.flags[s.hartsel]);
    if s.control.resumereq {
      assert AskResume(s).flags == s.flags[s.hartsel := SetResume(s.flags[s.hartsel])];
    }
  }

  lemma AskResetPart(s: Dm)
    requires Sized(s)
    ensures PartEffect(s, AskReset(s), if s.control.hartreset then {s.hartsel} else {})
    ensures AskReset(s).busy == s.busy
  {
    hide Go;
  }

  lemma PartsJoin(s: Dm, t: Dm, u: Dm, a: set<nat>, b: set<nat>)
    requires Sized(s) && PartEffect(s, t, a) && PartEffect(t, u, b)
    ensures PartEffect(s, u, a + b) && a + {} == a && {} + b == b
  {
    hide Go, Sized;
  }

  /** The selected hart, if it exists and is to be reset. */
  function HartReset(s: Dm): set<nat> {
    if s.hartsel < s.nprocs && s.control.hartreset then {s.hartsel} else {}
  }

  lemma AskHartPart(s: Dm)
    requires Sized(s)
    ensures PartEffect(s, AskHart(s), HartReset(s)) && AskHart(s).busy == s.busy
  {
    hide Sized, AskHalt, AskResume, AskReset, PartEffect;
    if s.hartsel < s.nprocs {
      AskHaltPart(s);
      AskResumePart(AskHalt(s));
      AskResetPart(AskResume(AskHalt(s)));
      PartsJoin(s, AskHalt(s), AskResume(AskHalt(s)), {}, {});
      PartsJoin(s, AskResume(AskHalt(s)), AskHart(s), {}, HartReset(s));
    } else {
      NothingDone(s);
    }
  }

  lemma NothingDone(s: Dm)
    requires Sized(s)
    ensures PartEffect(s, s, {})
  {
    hide Go;
  }

  predicate IsHart(s: Dm, h: nat) { h < s.nprocs }

  function Existing(s: Dm): set<nat> { set h: nat | h < s.nprocs && IsHart(s, h) }

  lemma AllResetPart(s: Dm)
    requires Sized(s)
    ensures PartEffect(s, AllReset(s), Existing(s)) && AllReset(s).busy == s.busy
  {
    hide Go;
  }

  /** The harts reset by the fields in place. */
  function DownBy(s: Dm): set<nat> {
    HartReset(s) + if s.control.ndmreset then Existing(s) else {}
  }

  lemma AskedPart(s: Dm)
    requires Sized(s)
    ensures var u := AskHart(s); var t := if u.control.ndmreset then AllReset(u) else u;
      PartEffect(s, t, DownBy(s)) && t.busy == s.busy
  {
    hide Sized, AskHart, AllReset, PartEffect;
    AskHartPart(s);
    AskHartSelects(s);
    var u := AskHart(s);
    AllResetPart(u);
    NothingDone(u);
    SameHarts(s, u);
    PartsJoin(s, u, AllReset(u), HartReset(s), Existing(u));
    PartsJoin(s, u, u, HartReset(s), {});
  }

  lemma SameHarts(s: Dm, t: Dm)
    requires s.nprocs == t.nprocs
    ensures Existing(s) == Existing(t)
  {
  }

  lemma AskHartSelects(s: Dm)
    requires Sized(s)
    ensures Sized(AskHart(s)) && AskHart(s).control == s.control && AskHart(s).nprocs == s.nprocs
  {
    AskHartKeeps(s);
    hide AskHart, Sized;
  }

  lemma ResetsAreDown(s: Dm, value: bv32, random: bv32, h: nat)
    requires Sized(s) && Sized(Activated(s, value, random)) && Sized(Fields(Activated(s, value, random), value))
    requires Fields(Activated(s, value, random), value).nprocs == Activated(s, value, random).nprocs
    requires Activated(s, value, random).authenticated
    ensures Resets(s, value, random, h) <==> h in DownBy(Fields(Activated(s, value, random), value))
  {
    hide Activated, Fields, Sized;
  }

  lemma ControlParts(s: Dm, value: bv32, random: bv32)
    requires Sized(s)
    ensures var t := Activated(s, value, random);
      && Sized(t)
      && (!t.authenticated ==> PartEffect(s, WriteControl(s, value, random), {}))
      && (t.authenticated ==>
            && Sized(Fields(t, value)) && Fields(t, value).nprocs == t.nprocs
            && PartEffect(s, WriteControl(s, value, random), DownBy(Fields(t, value))))
      && WriteControl(s, value, random).busy == (s.busy && !Activates(s, value))
  {
    hide Sized, Activated, Fields, AskHart, AllReset, Activates, PartEffect, DownBy;
    var t := Activated(s, value, random);
    ActivatedPart(s, value, random);
    PartSized(s, t, {});
    if t.authenticated {
      var u := Fields(t, value);
      FieldsPart(t, value);
      PartSized(t, u, {});
      PartsJoin(s, t, u, {}, {});
      AskedPart(u);
      PartsJoin(s, u, WriteControl(s, value, random), {}, DownBy(u));
    }
  }

  lemma PartSized(s: Dm, t: Dm, down: set<nat>)
    requires Sized(s) && PartEffect(s, t, down)
    ensures Sized(t) && t.nprocs == s.nprocs
  {
    hide Sized, Go;
  }

  lemma ControlSized(s: Dm, value: bv32, random: bv32)
    requires Sized(s)
    ensures ControlEffect(s, WriteControl(s, value, random), value, random)
  {
    hide Go, Activated, Fields, DownBy, Resets, Activates, WriteControl;
    ControlParts(s, value, random);
    forall h: nat | h < MAX_HARTS
      ensures WriteControl(s, value, random).halted[h] == (s.halted[h] && !Resets(s, value, random, h))
    {
      if Activated(s, value, random).authenticated {
        ResetsAreDown(s, value, random, h);
      } else {
        LockedResetsNone(s, value, random, h);
      }
    }
  }

  lemma LockedResetsNone(s: Dm, value: bv32, random: bv32, h: nat)
    requires Sized(s) && !Activated(s, value, random).authenticated
    ensures !Resets(s, value, random, h)
  {
    hide Activated;
  }

  /** The harts in `down` are reset, the module as well if `lost`, and any hart may be selected. */
  ghost predicate Controlled(w: World, w': World, down: set<nat>, lost: bool)
    requires Sized(w.dm)
  {
    var s, t := w.dm, w'.dm;
    && Sized(t) && t.nprocs == s.nprocs && t.code == s.code && t.busy == (s.busy && !lost)
    && w'.accepted == w.accepted && w'.executed == w.executed && |w'.harts| == |w.harts|
    && (forall h :: 0 <= h < |w.harts| ==> w'.harts[h] == if h in down then Running else w.harts[h])
    && (forall h :: 0 <= h < MAX_HARTS ==> t.halted[h] == (s.halted[h] && h !in down))
    && (forall h :: 0 <= h < MAX_HARTS ==> Go(t.flags[h]) == Go(s.flags[h]))
  }

  lemma NoneExecutes(w: World, h: nat)
    requires Inv(w) && !w.dm.busy && h < MAX_HARTS
    ensures !Go(w.dm.flags[h]) && (h < |w.harts| ==> w.harts[h] != AtGoing && !Between(w.harts[h]))
  {
    hide Go;
    if h < |w.harts| { assert HartOk(w.harts[h], w.dm.halted[h], h == w.dm.hartsel); }
  }

  lemma IdleControl(w: World, w': World, down: set<nat>, lost: bool)
    requires Inv(w) && !w.dm.busy && Controlled(w, w', down, lost)
    ensures Inv(w')
  {
    hide Go, Between;
    forall h | 0 <= h < |w.harts|
      ensures HartOk(w'.harts[h], w'.dm.halted[h], h == w'.dm.hartsel)
    {
      NoneExecutes(w, h);
      NotBetween();
      assert HartOk(w.harts[h], w.dm.halted[h], h == w.dm.hartsel);
    }
    forall h: nat | h < MAX_HARTS
      ensures !Go(w'.dm.flags[h])
    {
      NoneExecutes(w, h);
    }
    NoneExecutes(w, w.dm.hartsel);
    NoneExecutes(w, w'.dm.hartsel);
    NotBetween();
    assert HartsOk(w');
  }

  lemma NotBetween()
    ensures !Between(Running)
  {
  }

  /** With the same hart selected everything about the harts stays in order. */
  lemma SameSelected(w: World, w': World, down: set<nat>, lost: bool)
    requires Inv(w) && Controlled(w, w', down, lost) && w'.dm.hartsel == w.dm.hartsel
    ensures HartsOk(w')
  {
    hide Go;
    forall h | 0 <= h < |w.harts|
      ensures HartOk(w'.harts[h], w'.dm.halted[h], h == w'.dm.hartsel)
    {
      assert HartOk(w.harts[h], w.dm.halted[h], h == w.dm.hartsel);
    }
  }

  lemma PendingControl(w: World, w': World, down: set<nat>, lost: bool)
    requires Inv(w) && w.dm.busy && Go(w.dm.flags[w.dm.hartsel]) && Controlled(w, w', down, lost)
    ensures Inv(w') <==> !lost && w'.dm.hartsel == w.dm.hartsel
  {
    hide Go;
    if !lost && w'.dm.hartsel == w.dm.hartsel {
      SameSelected(w, w', down, lost);
    }
  }

  /** The hart that is executing is reset: only a reset of the module forgets it. */
  lemma ExecutingReset(w: World, w': World, down: set<nat>, lost: bool)
    requires Inv(w) && w.dm.busy && !Go(w.dm.flags[w.dm.hartsel]) && Controlled(w, w', down, lost)
    requires w.dm.hartsel in down
    ensures Inv(w') <==> lost
  {
    hide Go;
    assert Between(SelectedPc(w)) && w.dm.hartsel < |w.harts|;
    forall h | 0 <= h < |w.harts|
      ensures HartOk(w'.harts[h], w'.dm.halted[h], h == w'.dm.hartsel)
    {
      assert HartOk(w.harts[h], w.dm.halted[h], h == w.dm.hartsel);
    }
  }

  lemma ExecutingControl(w: World, w': World, down: set<nat>, lost: bool)
    requires Inv(w) && w.dm.busy && !Go(w.dm.flags[w.dm.hartsel]) && Controlled(w, w', down, lost)
    requires w.dm.hartsel !in down
    ensures Inv(w') <==> !lost && w'.dm.hartsel == w.dm.hartsel
  {
    hide Go;
    assert Between(SelectedPc(w)) && w.dm.hartsel < |w.harts|;
    if w'.dm.hartsel == w.dm.hartsel {
      SameSelected(w, w', down, lost);
    } else {
      assert !HartOk(w'.harts[w.dm.hartsel], w'.dm.halted[w.dm.hartsel], false);
    }
  }

  /** The harts that the write resets. */
  function Down(s: Dm, value: bv32, random: bv32): set<nat>
    requires Sized(s)
  {
    set h: nat | h < MAX_HARTS && Resets(s, value, random, h)
  }

  lemma ControlIs(w: World, value: bv32, random: bv32)
    requires Sized(w.dm) && w.dm.nprocs == |w.harts|
    ensures Controlled(w, ControlNext(w, value, random), Down(w.dm, value, random), Activates(w.dm, value))
    ensures ControlNext(w, value, random).dm == WriteControl(w.dm, value, random)
    ensures w.dm.hartsel in Down(w.dm, value, random) <==> Resets(w.dm, value, random, w.dm.hartsel)
  {
    hide Go, WriteControl, Resets, Activates;
    ControlSized(w.dm, value, random);
  }

  /** Which hart is selected after a write that does not activate the module. */
  lemma SelectedAfter(s: Dm, value: bv32, random: bv32)
    requires Sized(s) && !Activates(s, value)
    ensures WriteControl(s, value, random).hartsel
         == if s.authenticated && Bit(value, 0) then HartSelected(value) else s.hartsel
  {
    hide Bit, HartSelected, AskHart, AllReset;
    var t := Activated(s, value, random);
    ActivatedSized(s, value, random);
    var u := Fields(t, value);
    FieldsPart(t, value);
    AskHartKeeps(u);
    AllResetKeeps(AskHart(u));
  }

  /** A write to `dmcontrol`, whatever it selects, resets or resumes, keeps the handshake if and only
      if it is orderly. */
  lemma ControlKeeps(w: World, value: bv32, random: bv32)
    requires Inv(w)
    ensures Inv(ControlNext(w, value, random)) <==> Orderly(w, value, random)
  {
    InvSized(w);
    ControlIs(w, value, random);
    hide Inv, Go, WriteControl, ControlNext, Resets, Activates, Controlled, Down, Sized;
    var w', down, lost := ControlNext(w, value, random), Down(w.dm, value, random), Activates(w.dm, value);
    if !lost { SelectedAfter(w.dm, value, random); }
    if !w.dm.busy {
      IdleControl(w, w', down, lost);
    } else if Go(w.dm.flags[w.dm.hartsel]) {
      PendingControl(w, w', down, lost);
    } else if w.dm.hartsel in down {
      ExecutingReset(w, w', down, lost);
    } else {
      ExecutingControl(w, w', down, lost);
    }
  }

  lemma InvSized(w: World)
    requires Inv(w)
    ensures Sized(w.dm) && w.dm.nprocs == |w.harts| && w.dm.hartsel < |w.dm.flags|
  {
  }

  /** A write that deactivates the module leaves the requests of `dmcontrol` as they were and acts on
      them once more, whatever the value written: a hart whose reset was asked for is reset again, and
      one that was asked to resume is asked again. */
  lemma DeactivationRepeats(s: Dm, value: bv32, random: bv32)
    requires Sized(s) && s.authenticated && !Bit(value, 0)
    ensures var t := WriteControl(s, value, random);
      && Sized(t) && t.hartsel == s.hartsel && t.control == s.control.(dmactive := false)
      && (forall h :: 0 <= h < MAX_HARTS ==> t.halted[h] == (s.halted[h] && !ResetAsked(s, h)))
      && (s.hartsel < s.nprocs && s.control.resumereq ==> Resume(t.flags[s.hartsel]) && !t.resumeack[s.hartsel])
  {
    ControlSized(s, value, random);
    Deactivated(s, value, random);
    RepeatedResume(Activated(s, value, random));
    hide Bit, WriteControl, Activated, Go, Resume, Fields, AskHart, Resets, ResetAsked;
  }

  /** The fields of `dmcontrol` as they stand ask for a reset of hart `h`. */
  predicate ResetAsked(s: Dm, h: nat) {
    h < s.nprocs && ((s.control.hartreset && h == s.hartsel) || s.control.ndmreset)
  }

  lemma Deactivated(s: Dm, value: bv32, random: bv32)
    requires Sized(s) && s.authenticated && !Bit(value, 0)
    ensures var t := Activated(s, value, random);
      && Sized(t) && t == s.(control := s.control.(dmactive := false)) && Fields(t, value) == t
      && WriteControl(s, value, random) == (if s.control.ndmreset then AllReset(AskHart(t)) else AskHart(t))
      && (forall h :: Resets(s, value, random, h) <==> ResetAsked(s, h))
  {
    hide Bit, AskHart, AllReset;
    AskHartKeeps(Activated(s, value, random));
  }

  lemma RepeatedResume(s: Dm)
    requires Sized(s)
    ensures var t := AskHart(s);
      && Sized(t) && t.hartsel == s.hartsel && t.control == s.control
      && (s.hartsel < s.nprocs && s.control.resumereq ==> Resume(t.flags[s.hartsel]) && !t.resumeack[s.hartsel])
  {
    AskHartKeeps(s);
    FlagBits(s.flags[s.hartsel]);
    hide Resume, SetResume, AskHart, AskHalt, AskReset;
    if s.hartsel < s.nprocs && s.control.resumereq {
      AskedFlags(s);
    }
  }

  lemma AskedFlags(s: Dm)
    requires Sized(s) && s.hartsel < s.nprocs && s.control.resumereq
    ensures Sized(AskHart(s)) && AskHart(s).flags == s.flags[s.hartsel := SetResume(s.flags[s.hartsel])]
    ensures AskHart(s).resumeack == s.resumeack[s.hartsel := false]
  {
    hide SetResume, AskReset;
    AskHartKeeps(s);
    var t := AskResume(AskHalt(s));
    assert t.flags == s.flags[s.hartsel := SetResume(s.flags[s.hartsel])];
    ResetLeavesFlags(t);
  }

  lemma ResetLeavesFlags(s: Dm)
    requires Sized(s)
    ensures AskReset(s).flags == s.flags && AskReset(s).resumeack == s.resumeack
  {
  }

  // ---------------------------------------------------------------------------------------
  // Every run

  /** The module after reset, before any hart has halted. */
  ghost predicate Initial(w: World) {
    && Sized(w.dm) && w.dm.nprocs == |w.harts| && !w.dm.busy
    && w.accepted == [] && w.executed == []
    && (forall h :: 0 <= h < MAX_HARTS ==> !w.dm.halted[h] && w.dm.flags[h] == 0)
    && (forall h :: 0 <= h < |w.harts| ==> w.harts[h] == Running)
  }

  /** `trace` starts in `Initial` and follows `events`. */
  ghost predicate IsRun(trace: seq<World>, events: seq<Event>) {
    && |trace| == |events| + 1 && Initial(trace[0])
    && forall i :: 0 <= i < |events| ==> Enabled(trace[i], events[i]) && trace[i + 1] == Step(trace[i], events[i])
  }

  lemma InitialInv(w: World)
    requires Initial(w)
    ensures Inv(w)
  {
    ZeroFlags();
    hide Go;
  }

  lemma ZeroFlags()
    ensures !Go(0) && !Resume(0)
  {
  }

  lemma {:induction false} RunInv(trace: seq<World>, events: seq<Event>, i: nat)
    requires IsRun(trace, events) && i < |trace|
    ensures Inv(trace[i])
  {
    hide Inv, Initial, Enabled, Step;
    if i == 0 {
      InitialInv(trace[0]);
    } else {
      RunInv(trace, events, i - 1);
      assert trace[i - 1 + 1] == Step(trace[i - 1], events[i - 1]);
      InvStep(trace[i - 1], events[i - 1]);
    }
  }

  /** Along every run, whatever the interleaving: `busy` means exactly that the selected hart has
      been told to go or is executing; the commands executed are the commands accepted, each once
      and in order, but for the one that may be pending; and a hart that is executing executes the
      code of the last one. */
  lemma BusyAndExactlyOnce(trace: seq<World>, events: seq<Event>, i: nat)
    requires IsRun(trace, events) && i < |trace|
    ensures Sized(trace[i].dm)
    ensures var w := trace[i];
      var pending := Go(w.dm.flags[w.dm.hartsel]);
      && w.dm.busy == (pending || Between(SelectedPc(w)))
      && w.accepted == (if pending then w.executed + [w.dm.code] else w.executed)
      && (SelectedPc(w) == Executing ==> w.executed != [] && w.executed[|w.executed| - 1] == w.dm.code)
  {
    RunInv(trace, events, i);
  }

  /** Along every run, no access by the debugger changes the data area, the program buffer or the
      abstract code while a command is pending or being executed. */
  lemma BusyProtects(trace: seq<World>, events: seq<Event>, i: nat)
    requires IsRun(trace, events) && i < |events| && !events[i].HartStep?
    requires Sized(trace[i].dm)
    requires Go(trace[i].dm.flags[trace[i].dm.hartsel]) || Between(SelectedPc(trace[i]))
    ensures var s, s' := trace[i].dm, trace[i + 1].dm;
      s'.data == s.data && s'.progbuf == s.progbuf && s'.code == s.code && trace[i + 1].accepted == trace[i].accepted
  {
    hide Go, DmiWrite, DmiRead, Initial, WriteControl;
    RunInv(trace, events, i);
    var w := trace[i];
    match events[i]
    case Write(address, value, random) =>
      if address == DMI_DMCONTROL {
        ControlSized(w.dm, value, random);
      } else {
        WriteSized(w.dm, address, value, random);
      }
    case Read(address, bus) => ReadSized(w.dm, address, bus);
  }

  // ---------------------------------------------------------------------------------------
  // Progress, and what a reset would do

  /** How many steps of its own the selected hart is from jumping to the abstract code. */
  function Distance(pc: Pc): nat {
    match pc
    case AtGoing => 1
    case AtGo => 2
    case AtHalted(_) => 3
    case AtResume => 4
    case _ => 5
  }

  /** With GO up, every step of a halted hart brings it nearer to the abstract code, unless it
      finds that it has been told to resume first. */
  lemma GoIsSeen(w: World, h: nat, choice: Choice)
    requires Inv(w) && Enabled(w, HartStep(h, choice)) && h == w.dm.hartsel && Go(w.dm.flags[h])
    requires w.harts[h] != Running && w.harts[h] != AtResuming
    requires w.harts[h] == AtResume ==> !Resume(w.dm.flags[h])
    ensures var w' := HartNext(w, h, choice);
      if w.harts[h] == AtGoing then w'.harts[h] == Executing && w'.executed == w.executed + [w.dm.code]
      else Distance(w'.harts[h]) < Distance(w.harts[h]) <= 4 && Go(w'.dm.flags[h])
  {
    hide Go, Resume;
    assert HartOk(w.harts[h], w.dm.halted[h], h == w.dm.hartsel);
  }

  /** How often hart `h` steps. */
  function StepsOf(events: seq<Event>, h: nat): nat {
    if |events| == 0 then 0
    else (if events[0].HartStep? && events[0].h == h then 1 else 0) + StepsOf(events[1..], h)
  }

  predicate NoControl(events: seq<Event>) {
    forall i :: 0 <= i < |events| ==> !(events[i].Write? && events[i].address == DMI_DMCONTROL)
  }

  /** GO is up for a hart in the ROM's loop that is not asked to resume. */
  predicate Called(w: World, h: nat) {
    && h == w.dm.hartsel && h < |w.harts| && h < |w.dm.flags| && Go(w.dm.flags[h]) && !Resume(w.dm.flags[h])
    && w.harts[h] != Running && w.harts[h] != AtResuming
  }

  /** A step of the hart that is called: it jumps, or is nearer to the jump. */
  lemma CalledSteps(w: World, h: nat, choice: Choice)
    requires Inv(w) && Called(w, h) && Enabled(w, HartStep(h, choice))
    ensures var w' := HartNext(w, h, choice);
      if w.harts[h] == AtGoing then |w'.executed| > |w.executed|
      else Called(w', h) && Distance(w'.harts[h]) < Distance(w.harts[h]) && w'.executed == w.executed
  {
    hide Go, Resume;
    GoIsSeen(w, h, choice);
    assert HartOk(w.harts[h], w.dm.halted[h], true);
  }

  /** A step of another hart leaves it called, and as near as it was. */
  lemma OthersStep(w: World, h: nat, g: nat, choice: Choice)
    requires Inv(w) && Called(w, h) && Enabled(w, HartStep(g, choice)) && g != h
    ensures var w' := HartNext(w, g, choice);
      Called(w', h) && w'.harts[h] == w.harts[h] && w'.executed == w.executed
  {
    hide Go, Resume, ClearResume, Overwrite;
    assert HartOk(w.harts[g], w.dm.halted[g], false);
    match w.harts[g]
    case Running =>
    case AtHalted(_) =>
    case AtGo =>
    case AtResume =>
    case AtResuming =>
    case _ => assert false;
  }

  /** So does an access that is no write to `dmcontrol`. */
  lemma AccessLeavesCalled(w: World, h: nat, dm: Dm)
    requires Inv(w) && Called(w, h) && Effect(w.dm, dm)
    ensures Called(Debugger(w, dm), h) && Debugger(w, dm).harts == w.harts && Debugger(w, dm).executed == w.executed
  {
    hide Go, Resume;
  }

  lemma NeverUndone(w: World, e: Event)
    requires Enabled(w, e)
    ensures |Step(w, e).executed| >= |w.executed|
  {
    hide DmiWrite, DmiRead, WriteControl, Resets, Overwrite, Orderly, Go, Resume;
    match e
    case HartStep(h, choice) =>
    case Write(address, value, random) => if address != DMI_DMCONTROL { WriteSized(w.dm, address, value, random); }
    case Read(address, bus) => ReadSized(w.dm, address, bus);
  }

  ghost predicate Follows(trace: seq<World>, events: seq<Event>) {
    && |trace| == |events| + 1
    && forall i :: 0 <= i < |events| ==> Enabled(trace[i], events[i]) && trace[i + 1] == Step(trace[i], events[i])
  }

  lemma RestFollows(trace: seq<World>, events: seq<Event>)
    requires Follows(trace, events) && |events| > 0
    ensures Enabled(trace[0], events[0]) && trace[1] == Step(trace[0], events[0])
    ensures Follows(trace[1..], events[1..])
  {
    hide Enabled, Step;
    assert trace[0 + 1] == Step(trace[0], events[0]);
    forall i | 0 <= i < |events| - 1
      ensures Enabled(trace[1..][i], events[1..][i]) && trace[1..][i + 1] == Step(trace[1..][i], events[1..][i])
    {
      assert Enabled(trace[i + 1], events[i + 1]) && trace[i + 1 + 1] == Step(trace[i + 1], events[i + 1]);
    }
  }

  lemma {:induction false} ExecutedGrows(trace: seq<World>, events: seq<Event>)
    requires Follows(trace, events)
    ensures |trace[|events|].executed| >= |trace[0].executed|
    decreases |events|
  {
    if |events| > 0 {
      RestFollows(trace, events);
      hide Follows, Enabled, Step;
      NeverUndone(trace[0], events[0]);
      ExecutedGrows(trace[1..], events[1..]);
      assert trace[1..][|events| - 1] == trace[|events|];
    }
  }

  /** One event: the called hart has jumped, or is still called, nearer if the step was its own. */
  lemma CalledEvent(w: World, h: nat, e: Event)
    requires Inv(w) && Called(w, h) && Enabled(w, e) && !(e.Write? && e.address == DMI_DMCONTROL)
    ensures var w' := Step(w, e);
      |w'.executed| > |w.executed| ||
      (Called(w', h) && |w'.executed| == |w.executed| &&
       Distance(w'.harts[h]) + (if e.HartStep? && e.h == h then 1 else 0) <= Distance(w.harts[h]))
  {
    hide Inv, Called, Effect, DmiWrite, DmiRead, HartNext, Debugger;
    match e
    case HartStep(g, choice) =>
      if g == h { CalledSteps(w, h, choice); } else { OthersStep(w, h, g, choice); }
    case Write(address, value, random) =>
      WriteSized(w.dm, address, value, random);
      AccessLeavesCalled(w, h, DmiWrite(w.dm, address, value, random).0);
    case Read(address, bus) =>
      ReadSized(w.dm, address, bus);
      AccessLeavesCalled(w, h, DmiRead(w.dm, address, bus).0);
  }

  lemma {:induction false} CalledWithin(trace: seq<World>, events: seq<Event>, h: nat)
    requires Follows(trace, events) && Inv(trace[0]) && Called(trace[0], h) && NoControl(events)
    requires StepsOf(events, h) >= Distance(trace[0].harts[h])
    ensures |trace[|events|].executed| > |trace[0].executed|
    decreases |events|
  {
    IsNear(trace[0], h);
    RestFollows(trace, events);
    hide Follows, Enabled, Step, Inv, Called, Distance;
    CalledEvent(trace[0], h, events[0]);
    InvStep(trace[0], events[0]);
    if |trace[1].executed| > |trace[0].executed| {
      ExecutedGrows(trace[1..], events[1..]);
    } else {
      CalledWithin(trace[1..], events[1..], h);
    }
    assert trace[1..][|events| - 1] == trace[|events|];
  }

  lemma IsNear(w: World, h: nat)
    requires Inv(w) && Called(w, h)
    ensures 1 <= Distance(w.harts[h]) <= 4
  {
    hide Go, Resume;
    assert HartOk(w.harts[h], w.dm.halted[h], true);
  }

  /** Along every run: once GO is up for a hart in the ROM's loop, and it is not asked to resume, it
      executes the abstract code within four steps of its own, whatever the other harts do and the
      debugger reads and writes besides `dmcontrol`. */
  lemma ExecutesWithinFour(trace: seq<World>, events: seq<Event>, i: nat, j: nat, h: nat)
    requires IsRun(trace, events) && i <= j <= |events| && Called(trace[i], h) && NoControl(events[i..j])
    requires StepsOf(events[i..j], h) >= 4
    ensures |trace[j].executed| > |trace[i].executed|
  {
    RunInv(trace, events, i);
    IsNear(trace[i], h);
    SegmentFollows(trace, events, i, j);
    hide IsRun, Follows, Inv, Called, Distance, StepsOf, NoControl;
    CalledWithin(trace[i..j + 1], events[i..j], h);
  }

  lemma SegmentFollows(trace: seq<World>, events: seq<Event>, i: nat, j: nat)
    requires IsRun(trace, events) && i <= j <= |events|
    ensures Follows(trace[i..j + 1], events[i..j])
  {
    hide Enabled, Step, Initial;
    forall k | 0 <= k < j - i
      ensures Enabled(trace[i..j + 1][k], events[i..j][k])
      ensures trace[i..j + 1][k + 1] == Step(trace[i..j + 1][k], events[i..j][k])
    {
      assert Enabled(trace[i + k], events[i + k]) && trace[i + k + 1] == Step(trace[i + k], events[i + k]);
    }
  }

  /** Resetting the module forgets `busy` but not the harts' flags: whichever hart was selected, it
      keeps the handshake exactly when no command is outstanding. */
  lemma ResetKeepsOnlyIdle(w: World, random: bv32)
    requires Inv(w)
    ensures Inv(w.(dm := Reset(w.dm, random))) <==> !w.dm.busy
  {
    hide Go;
    if !w.dm.busy {
      assert Inv(w.(dm := Reset(w.dm, random)));
    }
  }
}
