/** The handshake as the object that runs it. */
module Handshake {
  import opened Wrappers
  import opened HandshakeModel

  class HandshakeFsm {
    const deadline: int
    var phase: Phase
    var features: Option<Id>
    var mgmt: Id
    var resources: bool
    var config: Option<Config>
    var switchApproved: bool
    var asking: bool
    var echoes: nat
    var waiting: bool
    var signalled: nat
    var registrations: seq<Registration>
    var exits: seq<int>

    ghost function View(): Fsm
      reads this
    {
      Fsm(deadline, phase, features, mgmt, resources, config, switchApproved, asking, echoes, waiting, signalled,
          registrations, exits)
    }

    ghost predicate Valid()
      reads this
    {
      Sane(View())
    }

    /** Scheduled to run: not gone, and not blocked on the authenticator. */
    ghost predicate Runnable()
      reads this
    {
      Ready(View())
    }

    /** `waiting` says whether a connector gave a semaphore along. */
    constructor (deadline: int, waiting: bool)
      ensures View() == Start(deadline, waiting) && Runnable()
    {
      this.deadline, this.waiting, echoes, signalled := deadline, waiting, 0, 0;
      phase, features, mgmt, resources, config := SendFeaturesReq, None, 0, false, None;
      switchApproved, asking, registrations, exits := false, false, [], [];
    }

    method DoExit(error: int)
      modifies this
      ensures View() == Exit(old(View()), error)
    {
      exits := exits + [error];
      if waiting {
        signalled := signalled + 1;
      }
      if resources {
        resources := false;
      }
    }

    method SendMessage(error: int)
      modifies this
      ensures View() == Send(old(View()), error)
    {
      var next: Phase;
      if phase == SendFeaturesReq {
        next := SendConfig;
      } else if phase == SendConfig {
        next := RecvFeaturesReply;
      } else if phase == SendMgmtCapabilityReq {
        next := RecvMgmtCapabilityReply;
      } else if phase == SendMgmtResourcesReq {
        next := RecvMgmtResourcesUpdate;
      } else if phase == SendMgmtConfigReq {
        next := RecvMgmtConfigUpdate;
      } else {
        DoExit(EINVAL);
        return;
      }
      if error == EAGAIN {
        // blocked until the connection can send, or until the deadline
      } else if error != 0 {
        DoExit(error);
      } else {
        phase := next;
      }
    }

    method HandleCapability(ok: bool, id: Id, manager: bool)
      requires phase.RecvMgmtCapabilityReply?
      modifies this
      ensures View() == Handle(old(View()), CapabilityReply(ok, id, manager))
    {
      if !ok {
        return;
      }
      mgmt := id;
      if !manager {
        phase := CheckSwitchAuth;
        return;
      }
      phase := SendMgmtResourcesReq;
    }

    method HandleVendor(m: Message)
      requires Valid() && (m.CapabilityReply? || m.ResourcesUpdate? || m.ConfigUpdate?)
      modifies this
      ensures View() == Handle(old(View()), m)
    {
      match m
      case CapabilityReply(ok, id, manager) =>
        if phase != RecvMgmtCapabilityReply {
          return;
        }
        HandleCapability(ok, id, manager);
      case ResourcesUpdate =>
        if phase != RecvMgmtResourcesUpdate {
          return;
        }
        resources := true;
        phase := SendMgmtConfigReq;
      case ConfigUpdate(c) =>
        if phase != RecvMgmtConfigUpdate {
          return;
        }
        if c.Some? {
          config := c;
        }
        phase := CheckMgmtAuth;
    }

    method RecvMessage(r: Received)
      requires Valid()
      modifies this
      ensures View() == Receive(old(View()), r)
    {
      if r.Failure? {
        if r.error != EAGAIN {
          DoExit(r.error);
        }
        return;
      }
      match r.message
      case FeaturesReply(d) =>
        if phase == RecvFeaturesReply {
          features := d;
          if features.Some? {
            phase := SendMgmtCapabilityReq;
          }
        }
      case ErrorMessage =>
        if phase == RecvMgmtCapabilityReply {
          phase := CheckSwitchAuth;
        } else {
          DoExit(EINVAL);
        }
      case EchoRequest => echoes := echoes + 1;
      case Ignored =>
      case _ => HandleVendor(r.message);
    }

    /** Asks the authenticator; with none installed the switch is approved and the machine
        runs on at once. */
    method CheckAuth(next: Phase, e: Event)
      requires Runnable() && e.Wake? && e.now <= deadline
      requires (phase.CheckSwitchAuth? && next.RegisterSwitch?) || (phase.CheckMgmtAuth? && next.RegisterMgmt?)
      modifies this
      ensures Valid() && View() == Run(old(View()), e)
      decreases 12 - Rank(phase), 0
    {
      if !e.authenticator {
        switchApproved := true;
        phase := next;
        ApprovedSane(old(View()));
        RunOnce(e.(now := e.again));
        StepSane(old(View()), e);
        return;
      }
      assert features.Some?;
      asking := true;
    }

    /** The authenticator's answer. */
    method SwitchAuthCallback(approved: bool)
      requires Valid() && exits == [] && asking
      modifies this
      ensures Runnable() && View() == Step(old(View()), Answer(approved))
    {
      switchApproved := approved;
      phase := if phase.CheckSwitchAuth? then RegisterSwitch else RegisterMgmt;
      asking := false;
    }

    method RegisterMgmtChannel()
      requires Runnable() && phase.RegisterMgmt?
      modifies this
      ensures View() == Register(old(View()))
    {
      if !switchApproved {
        DoExit(EPERM);
        return;
      }
      if mgmt == 0 {
        DoExit(EINVAL);
        return;
      }
      assert resources;
      registrations := registrations + [Manager(mgmt, config)];
      waiting := false;
      DoExit(0);
    }

    method RegisterDatapath()
      requires Runnable() && phase.RegisterSwitch?
      modifies this
      ensures View() == Register(old(View()))
    {
      var id := features.value;
      if !switchApproved {
        DoExit(EPERM);
        return;
      }
      if id == 0 {
        DoExit(EINVAL);
        return;
      }
      registrations := registrations + [Switch(id, mgmt)];
      waiting := false;
      DoExit(0);
    }

    /** One activation. */
    method RunOnce(e: Event)
      requires Runnable() && e.Wake?
      modifies this
      ensures Valid() && View() == Step(old(View()), e)
      decreases 12 - Rank(phase), 1
    {
      StepSane(View(), e);
      if e.now > deadline {
        DoExit(ETIMEDOUT);
        return;
      }
      match phase
      case SendFeaturesReq => SendMessage(e.sent);
      case SendConfig => SendMessage(e.sent);
      case RecvFeaturesReply => RecvMessage(e.received);
      case SendMgmtCapabilityReq => SendMessage(e.sent);
      case RecvMgmtCapabilityReply => RecvMessage(e.received);
      case SendMgmtResourcesReq => SendMessage(e.sent);
      case RecvMgmtResourcesUpdate => RecvMessage(e.received);
      case SendMgmtConfigReq => SendMessage(e.sent);
      case RecvMgmtConfigUpdate => RecvMessage(e.received);
      case CheckSwitchAuth => CheckAuth(RegisterSwitch, e);
      case CheckMgmtAuth => CheckAuth(RegisterMgmt, e);
      case RegisterSwitch => RegisterDatapath();
      case RegisterMgmt => RegisterMgmtChannel();
    }
  }
}
