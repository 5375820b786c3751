/** A run that ends with a command outstanding, and what disturbs it. */
module HandshakeInputs {
  import opened DebugModule
  import opened AbstractCommand
  import opened Handshake

  /** One hart, no program buffer, no authentication, and nothing has happened yet. */
  function Start(): World {
    World(Dm(1, 0, false, 0, CONTROL_CLEAR, true, 0, false, CMDERR_NONE, 0, 0, 0, 0,
             seq(MAX_HARTS, h => false), seq(MAX_HARTS, h => false), seq(MAX_HARTS, h => false),
             seq(MAX_HARTS, h => false), seq(MAX_HARTS, h => 0), seq(8, k => 0), seq(4, k => 0), seq(20, k => 0)),
          [Running], [], [])
  }

  /** Select hart 0 and activate the module; select hart 1. */
  const ACTIVATE: bv32 := 1
  const SELECT_OTHER: bv32 := 0x0001_0001

  /** The module is active, the only hart selected, and nothing is outstanding. */
  ghost predicate Idle(w: World, pc: Pc) {
    && Sized(w.dm) && w.dm.nprocs == 1 && w.harts == [pc] && w.dm.hartsel == 0
    && w.dm.control.dmactive && w.dm.authenticated && !w.dm.busy && w.dm.cmderr == CMDERR_NONE
  }

  lemma StartInitial()
    ensures Initial(Start()) && Start().dm.authenticated && !Start().dm.control.dmactive && !Start().dm.busy
    ensures Start().dm.nprocs == 1 && Start().harts == [Running] && Start().dm.cmderr == CMDERR_NONE
    ensures !Start().dm.requireAuthentication
  {
  }

  lemma ValueBits()
    ensures Bit(ACTIVATE, 0) && !Bit(ACTIVATE, 30) && !Bit(ACTIVATE, 29) && !Bit(ACTIVATE, 1)
    ensures HartSelected(ACTIVATE) == 0
    ensures Bit(SELECT_OTHER, 0) && !Bit(SELECT_OTHER, 29) && !Bit(SELECT_OTHER, 1) && HartSelected(SELECT_OTHER) == 1
  {
  }

  /** The registers after a write to `dmcontrol` that asks for nothing but activation. */
  lemma ActivationParts(s: Dm)
    requires Sized(s) && s.nprocs == 1 && !s.requireAuthentication && !s.control.dmactive
    ensures var t := WriteControl(s, ACTIVATE, 0); t.authenticated && t.cmderr == CMDERR_NONE && !t.busy
  {
    ValueBits();
    hide Bit, HartSelected, SetResume, FirstSet;
    var t := Activated(s, ACTIVATE, 0);
    assert t.authenticated && t.cmderr == CMDERR_NONE && !t.busy;
    ActivatedSized(s, ACTIVATE, 0);
    var u := Fields(t, ACTIVATE);
    FieldsWritten(t, ACTIVATE);
    assert u.authenticated && u.cmderr == CMDERR_NONE && !u.busy && !u.control.resumereq && !u.control.hartreset;
    assert AskHart(u) == AskHalt(u);
  }

  lemma Activation(w: World)
    requires w == Start()
    ensures var e := Event.Write(DMI_DMCONTROL, ACTIVATE, 0);
      Enabled(w, e) && Idle(Handshake.Step(w, e), Running)
  {
    StartInitial();
    ValueBits();
    ActivationParts(w.dm);
    ControlWritten(w.dm, ACTIVATE, 0);
    ControlIs(w, ACTIVATE, 0);
    NotReset(w.dm, ACTIVATE, 0);
    hide WriteControl, Start, Activated, Fields, Resets, Bit, HartSelected, Go;
  }

  /** A write that asks for no reset of a hart resets none. */
  lemma NotReset(s: Dm, value: bv32, h: nat)
    requires Sized(s) && Bit(value, 0) && !Bit(value, 29) && !Bit(value, 1)
    ensures !Resets(s, value, 0, h)
  {
    hide Bit, HartSelected;
    ActivatedSized(s, value, 0);
    FieldsWritten(Activated(s, value, 0), value);
  }

  lemma Halting(w: World)
    requires Idle(w, Running)
    ensures var e := HartStep(0, Halt); Enabled(w, e) && Idle(Handshake.Step(w, e), AtHalted(false))
  {
  }

  lemma Halted(w: World)
    requires Idle(w, AtHalted(false))
    ensures var e := HartStep(0, Continue);
      Enabled(w, e) && Idle(Handshake.Step(w, e), AtGo) && Handshake.Step(w, e).dm.halted[0]
  {
    hide Go;
  }

  /** A command that transfers nothing is accepted, and GO goes up. */
  lemma Commanded(w: World)
    requires Idle(w, AtGo) && w.dm.halted[0]
    ensures var e := Event.Write(DMI_COMMAND, 0, 0);
      && Enabled(w, e)
      && var w' := Handshake.Step(w, e);
         Sized(w'.dm) && w'.dm.busy && w'.dm.hartsel == 0 && w'.dm.authenticated && w'.dm.control == w.dm.control
  {
    NothingCompiles(w.dm.progbufsize);
    hide Compile, SetGo;
    WriteSized(w.dm, DMI_COMMAND, 0, 0);
  }

  lemma NothingCompiles(progbufsize: nat)
    ensures Compile(0, progbufsize).Launch? && CommandType(0) == 0
  {
  }

  /** A run that ends with a command outstanding. Selecting another hart then breaks the handshake,
      and so does a reset of the module. */
  lemma DisorderlyInput() returns (trace: seq<World>, events: seq<Event>)
    ensures IsRun(trace, events) && |events| == 4
    ensures var w := trace[4];
      && Inv(w) && w.dm.busy
      && !Orderly(w, SELECT_OTHER, 0) && !Inv(ControlNext(w, SELECT_OTHER, 0))
      && !Inv(w.(dm := Reset(w.dm, 0)))
  {
    var e0, e1 := Event.Write(DMI_DMCONTROL, ACTIVATE, 0), HartStep(0, Halt);
    var e2, e3 := HartStep(0, Continue), Event.Write(DMI_COMMAND, 0, 0);
    StartInitial();
    Activation(Start());
    hide Start, Enabled, Handshake.Step, Inv, Initial, Orderly, ControlNext, Reset, IsRun;
    var w1 := Handshake.Step(Start(), e0);
    Halting(w1);
    var w2 := Handshake.Step(w1, e1);
    Halted(w2);
    var w3 := Handshake.Step(w2, e2);
    Commanded(w3);
    var w4 := Handshake.Step(w3, e3);
    trace, events := [Start(), w1, w2, w3, w4], [e0, e1, e2, e3];
    FourSteps(Start(), w1, w2, w3, w4, e0, e1, e2, e3);
    RunInv(trace, events, 4);
    ControlKeeps(w4, SELECT_OTHER, 0);
    SelectionDisorders(w4);
    ResetKeepsOnlyIdle(w4, 0);
  }

  lemma FourSteps(w0: World, w1: World, w2: World, w3: World, w4: World, e0: Event, e1: Event, e2: Event, e3: Event)
    requires Initial(w0) && Enabled(w0, e0) && w1 == Handshake.Step(w0, e0)
    requires Enabled(w1, e1) && w2 == Handshake.Step(w1, e1)
    requires Enabled(w2, e2) && w3 == Handshake.Step(w2, e2)
    requires Enabled(w3, e3) && w4 == Handshake.Step(w3, e3)
    ensures IsRun([w0, w1, w2, w3, w4], [e0, e1, e2, e3])
  {
    hide Initial, Enabled, Handshake.Step;
  }

  lemma SelectionDisorders(w: World)
    requires Sized(w.dm) && w.dm.busy && w.dm.hartsel == 0 && w.dm.authenticated && w.dm.control.dmactive
    ensures !Orderly(w, SELECT_OTHER, 0)
  {
    ValueBits();
    NotReset(w.dm, SELECT_OTHER, 0);
    hide Bit, HartSelected, WriteControl, Resets, Go;
  }
}
