/** The controller side of the OpenFlow connection handshake: section 5.3.1 of the OpenFlow
Switch Specification 1.0.0, with the management extension.  `Step` gives the effect of one
wake-up of the state machine against an arbitrary peer, authenticator and clock. */
module HandshakeModel {
  import opened Wrappers

  datatype Phase =
    | SendFeaturesReq
    | SendConfig
    | RecvFeaturesReply
    | SendMgmtCapabilityReq
    | RecvMgmtCapabilityReply
    | SendMgmtResourcesReq
    | RecvMgmtResourcesUpdate
    | SendMgmtConfigReq
    | RecvMgmtConfigUpdate
    | CheckSwitchAuth
    | CheckMgmtAuth
    | RegisterSwitch
    | RegisterMgmt

  const EPERM := 1
  const EAGAIN := 11
  const EINVAL := 22
  const ETIMEDOUT := 110

  type Id = nat
  type Errno = e: int | e != 0 witness EAGAIN
  type Config = string

  /** What the peer can send.  `FeaturesReply(None)` is one too short to hold the switch
      features, `CapabilityReply` with `ok` false is too short or in an unknown format, and
      `ConfigUpdate(None)` likewise.  `Ignored` stands for every message that the handshake
      only logs: packet-ins, foreign vendor messages, management errors, unknown types. */
  datatype Message =
    | FeaturesReply(datapath: Option<Id>)
    | CapabilityReply(ok: bool, mgmt: Id, manager: bool)
    | ResourcesUpdate
    | ConfigUpdate(config: Option<Config>)
    | EchoRequest
    | ErrorMessage
    | Ignored

  datatype Received = Failure(error: Errno) | Arrived(message: Message)

  /** One thing that happens to the state machine.  A wake-up brings a clock reading, the
      result a send would have, what a receive would find, whether an authenticator is
      installed, and the clock reading of the second look that an immediate approval takes. */
  datatype Event =
    | Wake(now: int, sent: int, received: Received, authenticator: bool, again: int)
    | Answer(approved: bool)

  datatype Registration =
    | Switch(datapath: Id, mgmt: Id)
    | Manager(mgmt: Id, config: Option<Config>)

  /** `waiting` says that a connector waits for the outcome on a semaphore that the machine
      still has, `signalled` how often the machine has raised it, `resources` that a resources
      update is stored, and `echoes` how many echo requests were answered. */
  datatype Fsm = Fsm(
    deadline: int,
    phase: Phase,
    features: Option<Id>,
    mgmt: Id,
    resources: bool,
    config: Option<Config>,
    approved: bool,
    asking: bool,
    echoes: nat,
    waiting: bool,
    signalled: nat,
    registrations: seq<Registration>,
    exits: seq<int>)

  function Start(deadline: int, waiting: bool): Fsm {
    Fsm(deadline, SendFeaturesReq, None, 0, false, None, false, false, 0, waiting, 0, [], [])
  }

  function Rank(p: Phase): nat {
    match p
    case SendFeaturesReq => 0
    case SendConfig => 1
    case RecvFeaturesReply => 2
    case SendMgmtCapabilityReq => 3
    case RecvMgmtCapabilityReply => 4
    case SendMgmtResourcesReq => 5
    case RecvMgmtResourcesUpdate => 6
    case SendMgmtConfigReq => 7
    case RecvMgmtConfigUpdate => 8
    case CheckSwitchAuth => 9
    case CheckMgmtAuth => 10
    case RegisterSwitch => 11
    case RegisterMgmt => 12
  }

  // ----- One step -----

  /** The outcome is reported, a connector that still waits is woken, and a stored resources
      update is freed. */
  function Exit(f: Fsm, error: int): Fsm {
    f.(exits := f.exits + [error], signalled := f.signalled + (if f.waiting then 1 else 0), resources := false)
  }

  predicate Sends(p: Phase) {
    p.SendFeaturesReq? || p.SendConfig? || p.SendMgmtCapabilityReq? || p.SendMgmtResourcesReq? || p.SendMgmtConfigReq?
  }

  predicate Receives(p: Phase) {
    p.RecvFeaturesReply? || p.RecvMgmtCapabilityReply? || p.RecvMgmtResourcesUpdate? || p.RecvMgmtConfigUpdate?
  }

  predicate Checks(p: Phase) {
    p.CheckSwitchAuth? || p.CheckMgmtAuth?
  }

  predicate Registers(p: Phase) {
    p.RegisterSwitch? || p.RegisterMgmt?
  }

  /** The phase after a request has been sent. */
  function Awaiting(p: Phase): Phase
    requires Sends(p)
  {
    match p
    case SendFeaturesReq => SendConfig
    case SendConfig => RecvFeaturesReply
    case SendMgmtCapabilityReq => RecvMgmtCapabilityReply
    case SendMgmtResourcesReq => RecvMgmtResourcesUpdate
    case SendMgmtConfigReq => RecvMgmtConfigUpdate
  }

  function Send(f: Fsm, error: int): Fsm {
    if !Sends(f.phase) then Exit(f, EINVAL)
    else if error == EAGAIN then f
    else if error != 0 then Exit(f, error)
    else f.(phase := Awaiting(f.phase))
  }

  function Handle(f: Fsm, m: Message): Fsm {
    match (f.phase, m)
    case (RecvFeaturesReply, FeaturesReply(d)) =>
      if d.Some? then f.(features := d, phase := SendMgmtCapabilityReq) else f.(features := None)
    case (RecvMgmtCapabilityReply, CapabilityReply(ok, mgmt, manager)) =>
      if !ok then f
      else f.(mgmt := mgmt, phase := if manager then SendMgmtResourcesReq else CheckSwitchAuth)
    case (RecvMgmtResourcesUpdate, ResourcesUpdate) => f.(resources := true, phase := SendMgmtConfigReq)
    case (RecvMgmtConfigUpdate, ConfigUpdate(c)) => f.(config := c, phase := CheckMgmtAuth)
    case (RecvMgmtCapabilityReply, ErrorMessage) => f.(phase := CheckSwitchAuth)
    case (_, ErrorMessage) => Exit(f, EINVAL)
    case (_, EchoRequest) => f.(echoes := f.echoes + 1)
    case _ => f
  }

  function Receive(f: Fsm, r: Received): Fsm {
    match r
    case Failure(error) => if error == EAGAIN then f else Exit(f, error)
    case Arrived(m) => Handle(f, m)
  }

  /** The phase an answer of the authenticator leads to. */
  function Judged(p: Phase): Phase
    requires Checks(p)
  {
    if p.CheckSwitchAuth? then RegisterSwitch else RegisterMgmt
  }

  function RegisteredId(f: Fsm): Id
    requires f.features.Some?
  {
    if f.phase.RegisterSwitch? then f.features.value else f.mgmt
  }

  /** The registration that a machine in a registering phase makes. */
  function Made(f: Fsm): Registration
    requires f.features.Some?
  {
    if f.phase.RegisterSwitch? then Switch(f.features.value, f.mgmt) else Manager(f.mgmt, f.config)
  }

  /** A connection that is registered takes the semaphore over. */
  function Register(f: Fsm): Fsm
    requires Registers(f.phase) && f.features.Some?
  {
    if !f.approved then Exit(f, EPERM)
    else if RegisteredId(f) == 0 then Exit(f, EINVAL)
    else Exit(f.(registrations := f.registrations + [Made(f)], waiting := false), 0)
  }

  function Approved(f: Fsm): Fsm
    requires Checks(f.phase)
  {
    f.(approved := true, phase := Judged(f.phase))
  }

  function Run(f: Fsm, e: Event): Fsm
    requires e.Wake?
    requires Rank(f.phase) >= 3 ==> f.features.Some?
  {
    if e.now > f.deadline then Exit(f, ETIMEDOUT)
    else if Sends(f.phase) then Send(f, e.sent)
    else if Receives(f.phase) then Receive(f, e.received)
    else if Registers(f.phase) then Register(f)
    else if e.authenticator then f.(asking := true)
    else if e.again > f.deadline then Exit(Approved(f), ETIMEDOUT)
    else Register(Approved(f))
  }

  /** Once it has exited, the machine is gone.  While it waits for the authenticator nothing
      but the answer wakes it, and an answer comes only to a question. */
  function Step(f: Fsm, e: Event): Fsm
    requires Sane(f)
  {
    if f.exits != [] then f
    else if f.asking then
      if e.Answer? then f.(approved := e.approved, phase := Judged(f.phase), asking := false) else f
    else if e.Wake? then Run(f, e)
    else f
  }

  // ----- What every step keeps -----

  predicate HasResources(p: Phase) {
    p.SendMgmtConfigReq? || p.RecvMgmtConfigUpdate? || p.CheckMgmtAuth? || p.RegisterMgmt?
  }

  /** Nothing is there before the phase in which it arrives, and whatever a phase relies on is. */
  predicate Ordered(f: Fsm) {
    && (f.features.Some? <==> Rank(f.phase) >= 3)
    && (HasResources(f.phase) && f.exits == [] ==> f.resources)
    && (Rank(f.phase) <= 9 ==> f.config.None?)
    && (f.asking ==> Checks(f.phase))
  }

  /** At most one exit.  It frees what is stored; with 0 it has registered a non-zero id and
      handed the semaphore on, and with an error it has registered nothing and woken whoever
      waits. */
  predicate Ended(f: Fsm) {
    if f.exits == [] then f.registrations == [] && f.signalled == 0
    else
      && |f.exits| == 1 && !f.resources
      && (if f.exits[0] == 0 then
            && Registers(f.phase) && f.approved && f.features.Some? && RegisteredId(f) != 0
            && f.registrations == [Made(f)] && !f.waiting && f.signalled == 0
          else f.registrations == [] && f.signalled == (if f.waiting then 1 else 0))
  }

  predicate Sane(f: Fsm) {
    Ordered(f) && Ended(f)
  }

  /** Ready to run: not gone, and not waiting for the authenticator. */
  predicate Ready(f: Fsm) {
    Sane(f) && f.exits == [] && !f.asking
  }

  lemma ExitSane(f: Fsm, error: int)
    requires Sane(f) && f.exits == [] && error != 0
    ensures Sane(Exit(f, error))
  {
  }

  lemma SendSane(f: Fsm, error: int)
    requires Ready(f)
    ensures Sane(Send(f, error)) && Rank(f.phase) <= Rank(Send(f, error).phase)
  {
    if Sends(f.phase) && error == 0 {
      assert Ordered(Send(f, error));
    } else if !Sends(f.phase) || error != EAGAIN {
      ExitSane(f, if Sends(f.phase) then error else EINVAL);
    }
  }

  lemma HandleSane(f: Fsm, m: Message)
    requires Ready(f)
    ensures Sane(Handle(f, m)) && Rank(f.phase) <= Rank(Handle(f, m).phase)
  {
    if m.ErrorMessage? && !f.phase.RecvMgmtCapabilityReply? {
      ExitSane(f, EINVAL);
    } else {
      assert Ordered(Handle(f, m)) && Ended(Handle(f, m));
    }
  }

  lemma ReceiveSane(f: Fsm, r: Received)
    requires Ready(f)
    ensures Sane(Receive(f, r)) && Rank(f.phase) <= Rank(Receive(f, r).phase)
  {
    hide Sane, Handle;
    match r
    case Failure(error) =>
      if error != EAGAIN {
        ExitSane(f, error);
      }
    case Arrived(m) => HandleSane(f, m);
  }

  lemma RegisterSane(f: Fsm)
    requires Ready(f) && Registers(f.phase)
    ensures Sane(Register(f))
  {
  }

  lemma ApprovedSane(f: Fsm)
    requires Ready(f) && Checks(f.phase)
    ensures Ready(Approved(f)) && Registers(Approved(f).phase) && Rank(f.phase) <= Rank(Approved(f).phase)
  {
  }

  lemma AnswerSane(f: Fsm, approved: bool)
    requires Sane(f) && f.exits == [] && f.asking
    ensures var g := f.(approved := approved, phase := Judged(f.phase), asking := false);
      Ready(g) && Rank(f.phase) <= Rank(g.phase)
  {
  }

  lemma RunSane(f: Fsm, e: Event)
    requires Ready(f) && e.Wake?
    ensures Sane(Run(f, e)) && Rank(f.phase) <= Rank(Run(f, e).phase)
  {
    assert Rank(f.phase) >= 3 ==> f.features.Some?;
    assert Sane(f.(asking := true)) || !Checks(f.phase);
    hide Sane, Send, Receive;
    if e.now > f.deadline {
      ExitSane(f, ETIMEDOUT);
    } else if Sends(f.phase) {
      SendSane(f, e.sent);
    } else if Receives(f.phase) {
      ReceiveSane(f, e.received);
    } else if Registers(f.phase) {
      RegisterSane(f);
    } else if !e.authenticator {
      ApprovedSane(f);
      ExitSane(Approved(f), ETIMEDOUT);
      RegisterSane(Approved(f));
    }
  }

  /** Every step keeps the machine sane, and its phase only moves forward. */
  lemma StepSane(f: Fsm, e: Event)
    requires Sane(f)
    ensures Sane(Step(f, e)) && Rank(f.phase) <= Rank(Step(f, e).phase)
  {
    hide Sane, Run;
    if f.exits == [] {
      if f.asking {
        if e.Answer? {
          AnswerSane(f, e.approved);
        }
      } else if e.Wake? {
        RunSane(f, e);
      }
    }
  }
}
