/** What holds of every run of the handshake, whatever the peer, the authenticator and the
clock do: what a registration proves about the run, and which runs end in one. */
module HandshakeRuns {
  import opened Wrappers
  import opened HandshakeModel

  /** The machine after the events of a run. */
  function After(f: Fsm, es: seq<Event>): (g: Fsm)
    requires Sane(f)
    ensures Sane(g)
    decreases |es|
  {
    if es == [] then f
    else
      var g := After(f, es[..|es| - 1]);
      StepSane(g, es[|es| - 1]);
      Step(g, es[|es| - 1])
  }

  lemma AfterSnoc(f: Fsm, es: seq<Event>, e: Event)
    requires Sane(f)
    ensures After(f, es + [e]) == Step(After(f, es), e)
  {
    assert (es + [e])[..|es|] == es;
  }

  /** The machine just before the event at `i`. */
  function Before(s: Fsm, es: seq<Event>, i: nat): Fsm
    requires Sane(s) && i < |es|
  {
    After(s, es[..i])
  }

  lemma BeforeGrow(s: Fsm, es: seq<Event>, e: Event, i: nat)
    requires Sane(s) && i <= |es|
    ensures Before(s, es + [e], i) == if i == |es| then After(s, es) else Before(s, es, i)
    ensures (es + [e])[i] == if i == |es| then e else es[i]
  {
    assert (es + [e])[..i] == es[..i];
    assert es[..|es|] == es;
  }

  // ----- One step at a time -----

  lemma HandleFixed(f: Fsm, m: Message)
    ensures Handle(f, m).deadline == f.deadline && Handle(f, m).waiting == f.waiting
  {
  }

  lemma HandleKept(f: Fsm, m: Message)
    requires Handle(f, m).phase == f.phase
    ensures Handle(f, m).mgmt == f.mgmt && Handle(f, m).config == f.config && Handle(f, m).approved == f.approved
    ensures Rank(f.phase) >= 3 ==> Handle(f, m).features == f.features
  {
    match m
    case FeaturesReply(_) =>
    case CapabilityReply(_, _, _) =>
    case _ =>
  }

  lemma RegisterFixed(f: Fsm)
    requires Registers(f.phase) && f.features.Some? && f.exits == []
    ensures Register(f) == f.(registrations := Register(f).registrations, waiting := Register(f).waiting,
                              signalled := Register(f).signalled, resources := false, exits := Register(f).exits)
    ensures Register(f).exits == [0] || Register(f).waiting == f.waiting
  {
  }

  lemma StepFixed(f: Fsm, e: Event)
    requires Sane(f)
    ensures Step(f, e).deadline == f.deadline
    ensures Step(f, e).exits == [0] || Step(f, e).waiting == f.waiting
  {
    assert Rank(f.phase) >= 3 ==> f.features.Some?;
    hide Sane, Handle, Register;
    if f.exits == [] && !f.asking && e.Wake? {
      if Receives(f.phase) && e.received.Arrived? {
        HandleFixed(f, e.received.message);
      } else if Registers(f.phase) {
        RegisterFixed(f);
      } else if Checks(f.phase) {
        RegisterFixed(Approved(f));
      }
    }
  }

  /** A wake-up on time that finds the message. */
  predicate Delivers(e: Event, deadline: int, m: Message) {
    e.Wake? && e.now <= deadline && e.received == Arrived(m)
  }

  /** The event settles the question of approval: it is the answer to a question that was
      asked, or there is nobody to ask. */
  predicate Decides(f: Fsm, e: Event, approved: bool) {
    if f.asking then e == Answer(approved)
    else e.Wake? && e.now <= f.deadline && !e.authenticator && approved
  }

  /** The ways one event leaves the phase. */
  lemma PhaseLeft(f: Fsm, e: Event)
    requires Sane(f) && Step(f, e).phase != f.phase
    ensures f.exits == []
    ensures Sends(f.phase) ==> !f.asking && Step(f, e) == f.(phase := Awaiting(f.phase))
    ensures Receives(f.phase) ==>
              && !f.asking && e.Wake? && e.received.Arrived?
              && Delivers(e, f.deadline, e.received.message) && Step(f, e) == Handle(f, e.received.message)
    ensures !Sends(f.phase) && !Receives(f.phase) ==>
              && Checks(f.phase)
              && Step(f, e).phase == Judged(f.phase)
              && Decides(f, e, Step(f, e).approved)
  {
    hide Handle;
  }

  /** No event changes what a phase relies on without leaving the phase. */
  lemma PhaseKept(f: Fsm, e: Event)
    requires Sane(f) && Step(f, e).phase == f.phase
    ensures var g := Step(f, e);
      && g.mgmt == f.mgmt && g.config == f.config && g.approved == f.approved
      && (Rank(f.phase) >= 3 ==> g.features == f.features)
  {
    if f.exits == [] && !f.asking && e.Wake? {
      RunKept(f, e);
    }
  }

  lemma RunKept(f: Fsm, e: Event)
    requires Ready(f) && e.Wake? && Run(f, e).phase == f.phase
    ensures var g := Run(f, e);
      && g.mgmt == f.mgmt && g.config == f.config && g.approved == f.approved
      && (Rank(f.phase) >= 3 ==> g.features == f.features)
  {
    assert Rank(f.phase) >= 3 ==> f.features.Some?;
    hide Sane, Handle, Register, Rank;
    if e.now <= f.deadline {
      if Receives(f.phase) && e.received.Arrived? {
        HandleKept(f, e.received.message);
      } else if Registers(f.phase) {
        RegisterFixed(f);
      } else if Checks(f.phase) {
        RegisterFixed(Approved(f));
      }
    }
  }

  lemma JudgedKeeps(f: Fsm, e: Event)
    requires Sane(f) && Checks(f.phase)
    ensures var g := Step(f, e); g.mgmt == f.mgmt && g.config == f.config && g.features == f.features
  {
    hide Register;
    if f.exits == [] && !f.asking && e.Wake? {
      RegisterFixed(Approved(f));
    }
  }

  // ----- What a registration proves about the run -----

  /** At `i` the machine is in the phase that waits for the message, and reads it in time. */
  ghost predicate Reads(s: Fsm, es: seq<Event>, i: int, p: Phase, m: Message)
    requires Sane(s)
  {
    && 0 <= i < |es|
    && var g := Before(s, es, i);
       g.phase == p && g.exits == [] && !g.asking && Delivers(es[i], g.deadline, m)
  }

  ghost predicate FeaturesAt(s: Fsm, es: seq<Event>, i: int, f: Fsm)
    requires Sane(s)
  {
    f.features.Some? && Reads(s, es, i, RecvFeaturesReply, FeaturesReply(f.features))
  }

  /** The capability question is answered: by a reply, or by an error that stands for no
      management support. */
  ghost predicate CapabilityAt(s: Fsm, es: seq<Event>, i: int, f: Fsm, manager: bool)
    requires Sane(s)
  {
    || Reads(s, es, i, RecvMgmtCapabilityReply, CapabilityReply(true, f.mgmt, manager))
    || (!manager && f.mgmt == 0 && Reads(s, es, i, RecvMgmtCapabilityReply, ErrorMessage))
  }

  ghost predicate ResourcesAt(s: Fsm, es: seq<Event>, i: int)
    requires Sane(s)
  {
    Reads(s, es, i, RecvMgmtResourcesUpdate, ResourcesUpdate)
  }

  ghost predicate ConfigAt(s: Fsm, es: seq<Event>, i: int, f: Fsm)
    requires Sane(s)
  {
    Reads(s, es, i, RecvMgmtConfigUpdate, ConfigUpdate(f.config))
  }

  /** At `i` the machine, in the phase that checks, gets the decision it acts on. */
  ghost predicate DecisionAt(s: Fsm, es: seq<Event>, i: int, check: Phase, f: Fsm)
    requires Sane(s)
  {
    && 0 <= i < |es|
    && var g := Before(s, es, i);
       g.phase == check && g.exits == [] && Decides(g, es[i], f.approved)
  }

  /** Where in the run the things happened that the machine's phase relies on. */
  datatype Milestones = Milestones(features: int, capability: int, resources: int, config: int, decision: int)

  predicate OnSwitchSide(p: Phase) {
    p.CheckSwitchAuth? || p.RegisterSwitch?
  }

  predicate OnManagerSide(p: Phase) {
    p.SendMgmtResourcesReq? || p.RecvMgmtResourcesUpdate? || HasResources(p)
  }

  ghost predicate Backed(s: Fsm, es: seq<Event>, f: Fsm, m: Milestones)
    requires Sane(s)
  {
    && (Rank(f.phase) >= 3 ==> FeaturesAt(s, es, m.features, f))
    && (Rank(f.phase) <= 4 ==> f.mgmt == 0)
    && (OnSwitchSide(f.phase) ==> m.features < m.capability && CapabilityAt(s, es, m.capability, f, false))
    && (OnManagerSide(f.phase) ==> m.features < m.capability && CapabilityAt(s, es, m.capability, f, true))
    && (HasResources(f.phase) ==> m.capability < m.resources && ResourcesAt(s, es, m.resources))
    && (f.phase.CheckMgmtAuth? || f.phase.RegisterMgmt? ==> m.resources < m.config && ConfigAt(s, es, m.config, f))
    && (f.phase.RegisterSwitch? ==> m.capability < m.decision && DecisionAt(s, es, m.decision, CheckSwitchAuth, f))
    && (f.phase.RegisterMgmt? ==> m.config < m.decision && DecisionAt(s, es, m.decision, CheckMgmtAuth, f))
  }

  /** The milestones after one more event at position `n`. */
  function Passed(m: Milestones, p: Phase, n: int): Milestones {
    match p
    case RecvFeaturesReply => m.(features := n)
    case RecvMgmtCapabilityReply => m.(capability := n)
    case RecvMgmtResourcesUpdate => m.(resources := n)
    case RecvMgmtConfigUpdate => m.(config := n)
    case CheckSwitchAuth => m.(decision := n)
    case CheckMgmtAuth => m.(decision := n)
    case _ => m
  }

  lemma ReadsGrow(s: Fsm, es: seq<Event>, e: Event, i: int, p: Phase, m: Message)
    requires Sane(s) && Reads(s, es, i, p, m)
    ensures Reads(s, es + [e], i, p, m)
  {
    BeforeGrow(s, es, e, i);
  }

  lemma DecisionGrow(s: Fsm, es: seq<Event>, e: Event, i: int, check: Phase, f: Fsm)
    requires Sane(s) && DecisionAt(s, es, i, check, f)
    ensures DecisionAt(s, es + [e], i, check, f)
  {
    BeforeGrow(s, es, e, i);
  }

  /** More events, and changes to what the milestones are not about, leave them in place. */
  lemma BackedGrow(s: Fsm, es: seq<Event>, f: Fsm, m: Milestones, e: Event, g: Fsm)
    requires Sane(s) && Backed(s, es, f, m)
    requires g.phase == f.phase && (Rank(f.phase) >= 3 ==> g.features == f.features)
    requires g.mgmt == f.mgmt && g.config == f.config && g.approved == f.approved
    ensures Backed(s, es + [e], g, m)
  {
    hide Reads, DecisionAt;
    if Rank(f.phase) >= 3 {
      ReadsGrow(s, es, e, m.features, RecvFeaturesReply, FeaturesReply(f.features));
    }
    if OnSwitchSide(f.phase) || OnManagerSide(f.phase) {
      CapabilityGrow(s, es, f, e, m.capability, OnManagerSide(f.phase), g);
    }
    if HasResources(f.phase) {
      ReadsGrow(s, es, e, m.resources, RecvMgmtResourcesUpdate, ResourcesUpdate);
    }
    if f.phase.CheckMgmtAuth? || f.phase.RegisterMgmt? {
      ReadsGrow(s, es, e, m.config, RecvMgmtConfigUpdate, ConfigUpdate(f.config));
    }
    if Registers(f.phase) {
      var check := if f.phase.RegisterSwitch? then CheckSwitchAuth else CheckMgmtAuth;
      DecisionGrow(s, es, e, m.decision, check, f);
      DecisionSame(s, es + [e], m.decision, check, f, g);
    }
  }

  lemma CapabilityGrow(s: Fsm, es: seq<Event>, f: Fsm, e: Event, i: int, manager: bool, g: Fsm)
    requires Sane(s) && CapabilityAt(s, es, i, f, manager) && g.mgmt == f.mgmt
    ensures CapabilityAt(s, es + [e], i, g, manager)
  {
    hide Reads;
    if Reads(s, es, i, RecvMgmtCapabilityReply, CapabilityReply(true, f.mgmt, manager)) {
      ReadsGrow(s, es, e, i, RecvMgmtCapabilityReply, CapabilityReply(true, f.mgmt, manager));
    } else {
      ReadsGrow(s, es, e, i, RecvMgmtCapabilityReply, ErrorMessage);
    }
  }

  lemma DecisionSame(s: Fsm, es: seq<Event>, i: int, check: Phase, f: Fsm, g: Fsm)
    requires Sane(s) && DecisionAt(s, es, i, check, f) && f.approved == g.approved
    ensures DecisionAt(s, es, i, check, g)
  {
  }

  lemma ReadsLast(s: Fsm, es: seq<Event>, f: Fsm, e: Event, m: Message)
    requires Sane(s) && f == After(s, es)
    requires f.exits == [] && !f.asking && Delivers(e, f.deadline, m)
    ensures Reads(s, es + [e], |es|, f.phase, m)
  {
    BeforeGrow(s, es, e, |es|);
  }

  lemma DecisionLast(s: Fsm, es: seq<Event>, f: Fsm, e: Event, g: Fsm)
    requires Sane(s) && f == After(s, es) && f.exits == [] && Decides(f, e, g.approved)
    ensures DecisionAt(s, es + [e], |es|, f.phase, g)
  {
    BeforeGrow(s, es, e, |es|);
  }

  /** What the milestones are about happened before now. */
  lemma MilestonesBefore(s: Fsm, es: seq<Event>, m: Milestones, f: Fsm)
    requires Sane(s) && Backed(s, es, f, m)
    ensures Rank(f.phase) >= 3 ==> m.features < |es|
    ensures OnSwitchSide(f.phase) || OnManagerSide(f.phase) ==> m.capability < |es|
    ensures HasResources(f.phase) ==> m.resources < |es|
    ensures f.phase.CheckMgmtAuth? || f.phase.RegisterMgmt? ==> m.config < |es|
  {
    hide Before;
  }

  lemma BackedSent(s: Fsm, es: seq<Event>, f: Fsm, m: Milestones, e: Event)
    requires Sane(s) && Backed(s, es, f, m) && Sends(f.phase)
    ensures Backed(s, es + [e], f.(phase := Awaiting(f.phase)), m)
  {
    hide Reads, DecisionAt, Sane;
    BackedGrow(s, es, f, m, e, f);
  }

  lemma BackedHandled(s: Fsm, es: seq<Event>, f: Fsm, m: Milestones, e: Event, msg: Message)
    requires Sane(s) && f == After(s, es) && Backed(s, es, f, m)
    requires Receives(f.phase) && f.exits == [] && !f.asking && Delivers(e, f.deadline, msg)
    requires Handle(f, msg).phase != f.phase
    ensures Backed(s, es + [e], Handle(f, msg), Passed(m, f.phase, |es|))
  {
    hide Reads, DecisionAt, After, Sane;
    BackedGrow(s, es, f, m, e, f);
    MilestonesBefore(s, es, m, f);
    ReadsLast(s, es, f, e, msg);
  }

  lemma BackedJudged(s: Fsm, es: seq<Event>, f: Fsm, m: Milestones, e: Event, g: Fsm)
    requires Sane(s) && f == After(s, es) && Backed(s, es, f, m)
    requires Checks(f.phase) && f.exits == [] && g.phase == Judged(f.phase) && Decides(f, e, g.approved)
    requires g.mgmt == f.mgmt && g.config == f.config && g.features == f.features
    ensures Backed(s, es + [e], g, Passed(m, f.phase, |es|))
  {
    hide Reads, DecisionAt, After, Sane;
    BackedGrow(s, es, f, m, e, f);
    MilestonesBefore(s, es, m, f);
    DecisionLast(s, es, f, e, g);
  }

  lemma BackedStep(s: Fsm, es: seq<Event>, f: Fsm, m: Milestones, e: Event)
    requires Sane(s) && f == After(s, es) && Backed(s, es, f, m)
    ensures var g := Step(f, e);
      Backed(s, es + [e], g, if g.phase == f.phase then m else Passed(m, f.phase, |es|))
  {
    hide Backed, After, Step, Sane, Handle;
    var g := Step(f, e);
    if g.phase == f.phase {
      PhaseKept(f, e);
      BackedGrow(s, es, f, m, e, g);
    } else {
      PhaseLeft(f, e);
      if Sends(f.phase) {
        BackedSent(s, es, f, m, e);
      } else if Receives(f.phase) {
        BackedHandled(s, es, f, m, e, e.received.message);
      } else {
        JudgedKeeps(f, e);
        BackedJudged(s, es, f, m, e, g);
      }
    }
  }

  lemma BackedStart(s: Fsm)
    requires s == Start(s.deadline, s.waiting)
    ensures Sane(s) && After(s, []) == s && Backed(s, [], s, Milestones(0, 0, 0, 0, 0))
  {
    hide Reads, DecisionAt;
  }

  lemma {:induction false} BackedRun(s: Fsm, es: seq<Event>) returns (m: Milestones)
    requires s == Start(s.deadline, s.waiting)
    ensures Sane(s) && Backed(s, es, After(s, es), m)
    decreases |es|
  {
    hide Backed, Step, Sane, After;
    BackedStart(s);
    if es == [] {
      m := Milestones(0, 0, 0, 0, 0);
    } else {
      var n := |es| - 1;
      var f, e := After(s, es[..n]), es[n];
      m := BackedRun(s, es[..n]);
      BackedStep(s, es[..n], f, m, e);
      AfterSnoc(s, es[..n], e);
      assert es == es[..n] + [e];
      m := if Step(f, e).phase == f.phase then m else Passed(m, f.phase, n);
    }
  }

  // ----- Main results -----

  /** The run has read, in this order, in the phases that wait for them and in time, the
      features reply with the datapath id and the answer to the capability question with the
      management id, and was then approved. */
  ghost predicate SwitchStory(s: Fsm, es: seq<Event>, f: Fsm, datapath: Id, mgmt: Id)
    requires Sane(s)
  {
    && f.features == Some(datapath) && f.mgmt == mgmt && f.approved
    && exists i, j, k | 0 <= i < j < k < |es| ::
         FeaturesAt(s, es, i, f) && CapabilityAt(s, es, j, f, false) && DecisionAt(s, es, k, CheckSwitchAuth, f)
  }

  /** The same for a manager: a features reply, a manager's capability reply, a resources
      update, a config update, and the approval. */
  ghost predicate ManagerStory(s: Fsm, es: seq<Event>, f: Fsm, mgmt: Id, config: Option<Config>)
    requires Sane(s)
  {
    && f.mgmt == mgmt && f.config == config && f.approved
    && exists i, j, k, l, n | 0 <= i < j < k < l < n < |es| ::
         && FeaturesAt(s, es, i, f) && CapabilityAt(s, es, j, f, true)
         && ResourcesAt(s, es, k) && ConfigAt(s, es, l, f) && DecisionAt(s, es, n, CheckMgmtAuth, f)
  }

  lemma SwitchBacked(s: Fsm, es: seq<Event>, f: Fsm, m: Milestones)
    requires Sane(s) && Backed(s, es, f, m) && f.phase.RegisterSwitch? && f.approved
    ensures f.features.Some? && SwitchStory(s, es, f, f.features.value, f.mgmt)
  {
    hide Before;
    assert FeaturesAt(s, es, m.features, f) && CapabilityAt(s, es, m.capability, f, false);
    assert DecisionAt(s, es, m.decision, CheckSwitchAuth, f);
  }

  lemma ManagerBacked(s: Fsm, es: seq<Event>, f: Fsm, m: Milestones)
    requires Sane(s) && Backed(s, es, f, m) && f.phase.RegisterMgmt? && f.approved
    ensures ManagerStory(s, es, f, f.mgmt, f.config)
  {
    hide Before;
    assert FeaturesAt(s, es, m.features, f) && CapabilityAt(s, es, m.capability, f, true);
    assert ResourcesAt(s, es, m.resources) && ConfigAt(s, es, m.config, f);
    assert DecisionAt(s, es, m.decision, CheckMgmtAuth, f);
  }

  /** What a sane machine has registered. */
  lemma RegisteredIs(f: Fsm, r: Registration)
    requires Sane(f) && r in f.registrations
    ensures f.exits == [0] && f.approved && f.features.Some? && Registers(f.phase)
    ensures r == Made(f) && RegisteredId(f) != 0
  {
    assert f.exits == [f.exits[0]];
  }

  /** Whatever the peer, the authenticator and the clock do, a registration is made under a
      non-zero id and only after its story, and the machine then exits with 0. */
  lemma RegistrationHasStory(s: Fsm, es: seq<Event>, f: Fsm, r: Registration)
    requires s == Start(s.deadline, s.waiting)
    requires Sane(s) && f == After(s, es) && r in f.registrations
    ensures f.exits == [0]
    ensures r.Switch? ==> r.datapath != 0 && SwitchStory(s, es, f, r.datapath, r.mgmt)
    ensures r.Manager? ==> r.mgmt != 0 && ManagerStory(s, es, f, r.mgmt, r.config)
  {
    var m := BackedRun(s, es);
    RegisteredIs(f, r);
    hide Backed, After, Sane, SwitchStory, ManagerStory;
    if f.phase.RegisterSwitch? {
      SwitchBacked(s, es, f, m);
    } else {
      ManagerBacked(s, es, f, m);
    }
  }

  /** The authenticator has said no. */
  predicate Refused(f: Fsm) {
    Registers(f.phase) && !f.approved
  }

  lemma RefusedStep(f: Fsm, e: Event)
    requires Sane(f) && Refused(f)
    ensures Refused(Step(f, e))
  {
  }

  lemma RefusedAnswer(f: Fsm)
    requires Sane(f) && f.exits == [] && f.asking
    ensures Refused(Step(f, Answer(false)))
  {
  }

  lemma RefusedIs(f: Fsm)
    requires Sane(f) && Refused(f)
    ensures f.registrations == []
  {
  }

  /** A peer that the authenticator refuses is never registered, whatever comes before or
      after. */
  lemma {:induction false} RefusedNeverRegisters(s: Fsm, es: seq<Event>, k: nat)
    requires Sane(s) && k < |es| && es[k] == Answer(false)
    requires Before(s, es, k).asking && Before(s, es, k).exits == []
    ensures Refused(After(s, es)) && After(s, es).registrations == []
    decreases |es|
  {
    hide Sane, Step, Refused, After;
    var n := |es| - 1;
    var f, e := After(s, es[..n]), es[n];
    assert es == es[..n] + [e];
    AfterSnoc(s, es[..n], e);
    if k < n {
      BeforeGrow(s, es[..n], e, k);
      RefusedNeverRegisters(s, es[..n], k);
      RefusedStep(f, e);
    } else {
      RefusedAnswer(f);
    }
    RefusedIs(After(s, es));
  }

  /** The machine exits at most once, with 0 exactly when it has registered.  Whoever waits
      is woken exactly by an exit with an error; a registered connection takes the semaphore
      over. */
  lemma {:induction false} ExitsOnce(s: Fsm, es: seq<Event>)
    requires s == Start(s.deadline, s.waiting) && Sane(s)
    ensures var f := After(s, es);
      && |f.exits| <= 1 && |f.registrations| <= 1
      && (f.exits == [0] <==> f.registrations != [])
      && f.waiting == (s.waiting && f.exits != [0])
      && f.signalled == (if s.waiting && f.exits != [] && f.exits != [0] then 1 else 0)
    decreases |es|
  {
    if es != [] {
      var n := |es| - 1;
      var f := After(s, es[..n]);
      ExitsOnce(s, es[..n]);
      StepFixed(f, es[n]);
      StepSane(f, es[n]);
      ExitsOnceStep(s, f, Step(f, es[n]), es[n]);
    }
  }

  lemma ExitsOnceStep(s: Fsm, f: Fsm, g: Fsm, e: Event)
    requires Sane(f) && Sane(g) && g == Step(f, e) && f.waiting == (s.waiting && f.exits != [0])
    requires g.exits == [0] || g.waiting == f.waiting
    ensures |g.exits| <= 1 && |g.registrations| <= 1
    ensures g.exits == [0] <==> g.registrations != []
    ensures g.waiting == (s.waiting && g.exits != [0])
    ensures g.signalled == (if s.waiting && g.exits != [] && g.exits != [0] then 1 else 0)
  {
    assert f.exits == [0] ==> g == f;
    hide Step;
    assert g.exits != [] ==> g.exits == [g.exits[0]];
  }

  /** One event makes the machine exit with 0 exactly when it is on time, finds the peer
      approved, or approves it for want of an authenticator, and the id is not 0. */
  lemma ExitsWithZeroExactlyWhen(f: Fsm, e: Event)
    requires Sane(f) && f.exits == []
    ensures Step(f, e).exits == [0] <==>
              && !f.asking && e.Wake? && e.now <= f.deadline
              && (|| (f.phase.RegisterSwitch? && f.approved && f.features.value != 0)
                  || (f.phase.RegisterMgmt? && f.approved && f.mgmt != 0)
                  || (!e.authenticator && e.again <= f.deadline
                      && (|| (f.phase.CheckSwitchAuth? && f.features.value != 0)
                          || (f.phase.CheckMgmtAuth? && f.mgmt != 0))))
  {
    assert Rank(f.phase) >= 3 ==> f.features.Some?;
    hide Sane, Handle, Register, Send, Rank;
    if !f.asking && e.Wake? && e.now <= f.deadline {
      if Sends(f.phase) {
        SendExits(f, e.sent);
      } else if Receives(f.phase) {
        if e.received.Arrived? {
          HandleExits(f, e.received.message);
        } else {
          assert Exit(f, e.received.error).exits == [e.received.error];
        }
      } else if Registers(f.phase) {
        RegisterExits(f);
      } else {
        RegisterExits(Approved(f));
        assert Exit(Approved(f), ETIMEDOUT).exits == [ETIMEDOUT];
      }
    } else {
      assert Exit(f, ETIMEDOUT).exits == [ETIMEDOUT];
    }
  }

  lemma SendExits(f: Fsm, error: int)
    requires f.exits == []
    ensures Send(f, error).exits != [0]
  {
    assert forall x: int :: Exit(f, x).exits == [x];
  }

  lemma HandleExits(f: Fsm, m: Message)
    requires f.exits == []
    ensures Handle(f, m).exits == if m.ErrorMessage? && !f.phase.RecvMgmtCapabilityReply? then [EINVAL] else []
  {
  }

  lemma RegisterExits(f: Fsm)
    requires Registers(f.phase) && f.features.Some? && f.exits == []
    ensures Register(f).exits == if !f.approved then [EPERM] else if RegisteredId(f) == 0 then [EINVAL] else [0]
  {
    assert forall x: int :: Exit(f, x).exits == [x];
  }

  /** A late wake-up ends the machine, whatever its phase. */
  lemma LateExits(f: Fsm, e: Event)
    requires Ready(f) && e.Wake? && e.now > f.deadline
    ensures Step(f, e).exits == [ETIMEDOUT] && Step(f, e).registrations == []
    ensures Step(f, e).signalled == (if f.waiting then 1 else 0) && Step(f, e).phase == f.phase
  {
  }

  /** Every exit and its code while messages are sent and received: which wake-ups on time end
      the machine, and how. */
  lemma ExitsTalking(f: Fsm, e: Event)
    requires Ready(f) && e.Wake? && e.now <= f.deadline
    ensures Sends(f.phase) ==>
              Step(f, e).exits == if e.sent == 0 || e.sent == EAGAIN then [] else [e.sent]
    ensures Receives(f.phase) && e.received.Failure? ==>
              Step(f, e).exits == if e.received.error == EAGAIN then [] else [e.received.error]
    ensures Receives(f.phase) && e.received.Arrived? ==>
              Step(f, e).exits == if e.received.message.ErrorMessage? && !f.phase.RecvMgmtCapabilityReply? then [EINVAL] else []
  {
    hide Sane, Handle, Register, Rank;
    if Receives(f.phase) && e.received.Arrived? {
      HandleExits(f, e.received.message);
    }
  }

  /** Every exit and its code while a switch is checked and registered. */
  lemma ExitsRegistering(f: Fsm, e: Event)
    requires Ready(f) && e.Wake? && e.now <= f.deadline
    ensures Checks(f.phase) && e.authenticator ==> Step(f, e).exits == [] && Step(f, e).asking
    ensures Checks(f.phase) && !e.authenticator && e.again > f.deadline ==> Step(f, e).exits == [ETIMEDOUT]
    ensures Registers(f.phase) && !f.approved ==> Step(f, e).exits == [EPERM]
    ensures (Registers(f.phase) && f.approved) || (Checks(f.phase) && !e.authenticator && e.again <= f.deadline) ==>
              var id := if f.phase.RegisterSwitch? || f.phase.CheckSwitchAuth? then f.features.value else f.mgmt;
              Step(f, e).exits == if id == 0 then [EINVAL] else [0]
  {
    assert Rank(f.phase) >= 3 ==> f.features.Some?;
    hide Sane, Handle, Register, Rank;
    if Registers(f.phase) {
      RegisterExits(f);
    } else if Checks(f.phase) {
      RegisterExits(Approved(f));
    }
  }

  /** A machine that waits for the authenticator sleeps through wake-ups, and an answer to no
      question is lost. */
  lemma SleepsThrough(f: Fsm, e: Event)
    requires Sane(f) && f.exits == [] && f.asking != e.Answer?
    ensures Step(f, e) == f
  {
  }

  /** A late wake-up, or an error message that is read where none is expected, bars a
      registration for good. */
  lemma SpoiledNeverRegisters(f: Fsm, e: Event, es: seq<Event>)
    requires Ready(f) && e.Wake? && Sane(Step(f, e))
    requires || e.now > f.deadline
             || (Receives(f.phase) && !f.phase.RecvMgmtCapabilityReply? && Delivers(e, f.deadline, ErrorMessage))
    ensures After(Step(f, e), es).exits == [if e.now > f.deadline then ETIMEDOUT else EINVAL]
    ensures After(Step(f, e), es).registrations == []
  {
    if e.now > f.deadline {
      LateExits(f, e);
    } else {
      ExitsTalking(f, e);
    }
    RunForward(Step(f, e), es);
    assert Ended(Step(f, e));
  }

  /** A request that is sent moves the machine to the very next phase; an echo request that is
      read is answered; whatever else is read out of place changes nothing. */
  lemma StepDetails(f: Fsm, e: Event)
    requires Ready(f) && e.Wake? && e.now <= f.deadline
    ensures Sends(f.phase) && e.sent == 0 ==>
              Rank(Step(f, e).phase) == Rank(f.phase) + 1 && Step(f, e) == f.(phase := Step(f, e).phase)
    ensures Receives(f.phase) && e.received == Arrived(EchoRequest) ==> Step(f, e) == f.(echoes := f.echoes + 1)
    ensures Receives(f.phase) && e.received.Arrived? && !e.received.message.ErrorMessage? && !e.received.message.EchoRequest?
            && !Answers(f.phase, e.received.message) ==>
              Step(f, e) == f
  {
    assert Rank(f.phase) < 3 ==> f.features.None?;
    hide Sane;
  }

  /** The phase only moves forward, and nothing moves after an exit. */
  lemma {:induction false} RunForward(f: Fsm, es: seq<Event>)
    requires Sane(f)
    ensures Rank(f.phase) <= Rank(After(f, es).phase)
    ensures f.exits != [] ==> After(f, es) == f
    decreases |es|
  {
    hide Sane, Rank;
    if es != [] {
      RunForward(f, es[..|es| - 1]);
      StepSane(After(f, es[..|es| - 1]), es[|es| - 1]);
    }
  }

  // ----- Which config a manager registers with -----

  /** The config update has been read. */
  predicate Configured(f: Fsm, mgmt: Id, c: Option<Config>) {
    (f.phase.CheckMgmtAuth? || f.phase.RegisterMgmt?) && f.mgmt == mgmt && f.config == c
  }

  lemma ConfiguredStep(f: Fsm, e: Event, mgmt: Id, c: Option<Config>)
    requires Sane(f) && Configured(f, mgmt, c)
    ensures Configured(Step(f, e), mgmt, c)
  {
    if f.phase.CheckMgmtAuth? {
      JudgedKeeps(f, e);
      if Step(f, e).phase != f.phase {
        PhaseLeft(f, e);
      }
    } else {
      assert Step(f, e).phase == f.phase by {
        if Step(f, e).phase != f.phase {
          PhaseLeft(f, e);
        }
      }
      PhaseKept(f, e);
    }
  }

  lemma {:induction false} ConfiguredRun(f: Fsm, es: seq<Event>, mgmt: Id, c: Option<Config>)
    requires Sane(f) && Configured(f, mgmt, c)
    ensures Configured(After(f, es), mgmt, c)
    decreases |es|
  {
    hide Sane, Step, Configured;
    if es != [] {
      ConfiguredRun(f, es[..|es| - 1], mgmt, c);
      ConfiguredStep(After(f, es[..|es| - 1]), es[|es| - 1], mgmt, c);
    }
  }

  /** The config update that the machine reads decides: whatever it registers from then on is
      that manager with that config, and so a config was read if and only if the update was
      readable. */
  lemma ConfigDecides(f: Fsm, e: Event, c: Option<Config>, es: seq<Event>, r: Registration)
    requires Ready(f) && f.phase.RecvMgmtConfigUpdate? && Delivers(e, f.deadline, ConfigUpdate(c))
    requires Sane(Step(f, e)) && r in After(Step(f, e), es).registrations
    ensures r == Manager(f.mgmt, c)
    ensures r.config.Some? <==> c.Some?
  {
    assert Configured(Step(f, e), f.mgmt, c);
    ConfiguredRun(Step(f, e), es, f.mgmt, c);
    RegisteredIs(After(Step(f, e), es), r);
  }

  // ----- Which runs end in a registration -----

  /** A message that does the handshake no harm: an error only in answer to the capability
      question, and no id of 0. */
  predicate Welcome(p: Phase, m: Message) {
    match m
    case FeaturesReply(d) => d.Some? ==> d.value != 0
    case CapabilityReply(ok, mgmt, manager) => ok && manager ==> mgmt != 0
    case ErrorMessage => p.RecvMgmtCapabilityReply?
    case _ => true
  }

  /** An event in time, without an error and without a refusal.  It need not bring anything. */
  predicate Benign(f: Fsm, e: Event) {
    match e
    case Wake(now, sent, received, _, again) =>
      && now <= f.deadline && again <= f.deadline && (sent == 0 || sent == EAGAIN)
      && (match received
          case Failure(error) => error == EAGAIN
          case Arrived(m) => Welcome(f.phase, m))
    case Answer(approved) => approved
  }

  predicate Answers(p: Phase, m: Message) {
    match p
    case RecvFeaturesReply => m.FeaturesReply? && m.datapath.Some?
    case RecvMgmtCapabilityReply => (m.CapabilityReply? && m.ok) || m.ErrorMessage?
    case RecvMgmtResourcesUpdate => m.ResourcesUpdate?
    case RecvMgmtConfigUpdate => m.ConfigUpdate?
    case _ => false
  }

  /** The event brings what the machine waits for, if it still waits for anything. */
  predicate Helps(f: Fsm, e: Event) {
    || f.exits != []
    || (f.asking && e.Answer?)
    || (&& !f.asking && e.Wake?
        && (Sends(f.phase) ==> e.sent == 0)
        && (Receives(f.phase) ==> e.received.Arrived? && Answers(f.phase, e.received.message)))
  }

  /** On the way to a registration, or there. */
  predicate Healthy(f: Fsm) {
    && Sane(f)
    && (f.exits != [] ==> f.exits == [0])
    && (Rank(f.phase) >= 3 ==> f.features.Some? && f.features.value != 0)
    && (OnManagerSide(f.phase) ==> f.mgmt != 0)
    && (Registers(f.phase) ==> f.approved)
  }

  /** The most events that help which the machine can still need. */
  function Distance(f: Fsm): nat {
    if f.exits != [] then 0
    else if Registers(f.phase) then 1
    else if Checks(f.phase) then if f.asking then 2 else 3
    else 12 - Rank(f.phase)
  }

  lemma SendHealthy(f: Fsm, e: Event)
    requires Healthy(f) && Ready(f) && Sends(f.phase) && e.Wake? && (e.sent == 0 || e.sent == EAGAIN)
    ensures Healthy(Send(f, e.sent)) && Distance(Send(f, e.sent)) <= Distance(f)
    ensures e.sent == 0 ==> Distance(Send(f, e.sent)) < Distance(f)
  {
    SendSane(f, e.sent);
    hide Sane;
  }

  lemma HandleHealthy(f: Fsm, m: Message)
    requires Healthy(f) && Ready(f) && Receives(f.phase) && Welcome(f.phase, m)
    ensures Healthy(Handle(f, m)) && Distance(Handle(f, m)) <= Distance(f)
    ensures Answers(f.phase, m) ==> Distance(Handle(f, m)) < Distance(f)
  {
    HandleSane(f, m);
    hide Sane;
  }

  lemma RegisterHealthy(f: Fsm)
    requires Healthy(f) && Ready(f) && Registers(f.phase)
    ensures Healthy(Register(f)) && Distance(Register(f)) == 0 && Distance(f) > 0
  {
    RegisterSane(f);
    hide Sane;
  }

  lemma ApprovedHealthy(f: Fsm)
    requires Healthy(f) && Ready(f) && Checks(f.phase)
    ensures Healthy(Approved(f)) && Ready(Approved(f))
  {
    ApprovedSane(f);
    hide Sane;
  }

  lemma AnswerHealthy(f: Fsm)
    requires Healthy(f) && f.exits == [] && f.asking
    ensures var g := f.(approved := true, phase := Judged(f.phase), asking := false);
      Healthy(g) && Distance(g) < Distance(f)
  {
    AnswerSane(f, true);
    hide Sane;
  }

  lemma AskHealthy(f: Fsm)
    requires Healthy(f) && Ready(f) && Checks(f.phase)
    ensures Healthy(f.(asking := true)) && Distance(f.(asking := true)) < Distance(f)
  {
    assert Sane(f.(asking := true));
    hide Sane;
  }

  lemma RunHealthy(f: Fsm, e: Event)
    requires Healthy(f) && Ready(f) && e.Wake? && Benign(f, e)
    requires Rank(f.phase) >= 3 ==> f.features.Some?
    ensures Healthy(Run(f, e)) && Distance(Run(f, e)) <= Distance(f)
    ensures Helps(f, e) ==> Distance(Run(f, e)) < Distance(f)
  {
    hide Healthy, Sane, Send, Handle, Register, Distance, Answers, Welcome;
    if Sends(f.phase) {
      SendHealthy(f, e);
    } else if Receives(f.phase) {
      if e.received.Arrived? {
        HandleHealthy(f, e.received.message);
      }
    } else if Registers(f.phase) {
      RegisterHealthy(f);
    } else if e.authenticator {
      AskHealthy(f);
    } else {
      ApprovedHealthy(f);
      RegisterHealthy(Approved(f));
      AskHealthy(f);
    }
  }

  /** A benign event leads away from no registration, and one that helps leads on. */
  lemma BenignStep(f: Fsm, e: Event)
    requires Healthy(f) && Benign(f, e)
    ensures Healthy(Step(f, e)) && Distance(Step(f, e)) <= Distance(f)
    ensures f.exits == [] && Helps(f, e) ==> Distance(Step(f, e)) < Distance(f)
  {
    assert Sane(f) && (Rank(f.phase) >= 3 ==> f.features.Some?);
    hide Healthy, Run, Distance;
    if f.exits == [] {
      if f.asking {
        if e.Answer? {
          AnswerHealthy(f);
        }
      } else if e.Wake? {
        RunHealthy(f, e);
      }
    }
  }

  /** How many events of the run bring what the machine waits for at the time. */
  ghost function Helped(s: Fsm, es: seq<Event>): nat
    requires Sane(s)
    decreases |es|
  {
    if es == [] then 0
    else
      var n := |es| - 1;
      Helped(s, es[..n]) + if Helps(After(s, es[..n]), es[n]) then 1 else 0
  }

  ghost predicate BenignRun(s: Fsm, es: seq<Event>)
    requires Sane(s)
  {
    forall i: nat | i < |es| :: Benign(Before(s, es, i), es[i])
  }

  lemma {:induction false} BenignRunDescends(s: Fsm, es: seq<Event>)
    requires Healthy(s) && BenignRun(s, es)
    ensures Healthy(After(s, es))
    ensures After(s, es).exits == [] ==> Helped(s, es) + Distance(After(s, es)) <= Distance(s)
    decreases |es|
  {
    assert Sane(s);
    hide Healthy, Sane, Benign, Helps, Step, Distance;
    if es != [] {
      var n := |es| - 1;
      BenignPrefix(s, es);
      BenignRunDescends(s, es[..n]);
      BenignStep(After(s, es[..n]), es[n]);
      RunForward(After(s, es[..n]), [es[n]]);
      assert [es[n]][..0] == [];
    }
  }

  lemma BenignPrefix(s: Fsm, es: seq<Event>)
    requires Sane(s) && es != [] && BenignRun(s, es)
    ensures BenignRun(s, es[..|es| - 1]) && Benign(After(s, es[..|es| - 1]), es[|es| - 1])
  {
    hide Benign, Sane, After;
    var n := |es| - 1;
    assert Benign(Before(s, es, n), es[n]);
    forall i: nat | i < n
      ensures Benign(Before(s, es[..n], i), es[..n][i])
    {
      assert Benign(Before(s, es, i), es[i]);
      assert es[..n][..i] == es[..i];
    }
  }

  lemma StartHealthy(s: Fsm)
    requires s == Start(s.deadline, s.waiting)
    ensures Healthy(s) && Distance(s) == 12
  {
  }

  lemma HealthyExit(f: Fsm)
    requires Healthy(f)
    ensures f.exits == [] ==> Distance(f) > 0
    ensures f.exits != [] ==> f.exits == [0] && |f.registrations| == 1
  {
  }

  /** Every run without harm in which the machine gets what it waits for, at whatever moments
      and with whatever in between, ends in a registration, after at most twelve events that
      help. */
  lemma PromptPeerRegisters(s: Fsm, es: seq<Event>)
    requires s == Start(s.deadline, s.waiting) && Sane(s)
    requires BenignRun(s, es) && Helped(s, es) >= 12
    ensures After(s, es).exits == [0] && |After(s, es).registrations| == 1
  {
    hide Healthy, Sane, BenignRun, Distance, After, Helped;
    StartHealthy(s);
    BenignRunDescends(s, es);
    HealthyExit(After(s, es));
  }

  // ----- A run with an unreadable config -----

  /** A wake-up on time at which sending works, `m` is there to be received, and there is no
      authenticator. */
  function Prompt(now: int, m: Message): Event {
    Wake(now, 0, Arrived(m), false, now)
  }

  function PromptRun(now: int, ms: seq<Message>): seq<Event> {
    if ms == [] then [] else PromptRun(now, ms[..|ms| - 1]) + [Prompt(now, ms[|ms| - 1])]
  }

  /** Prompt wake-ups with these messages bring the machine from its start to `f`. */
  ghost predicate Leads(s: Fsm, ms: seq<Message>, f: Fsm)
    requires Sane(s)
  {
    f == After(s, PromptRun(s.deadline, ms)) && f.deadline == s.deadline
  }

  lemma LeadsOn(s: Fsm, ms: seq<Message>, f: Fsm, m: Message)
    requires Sane(s) && Leads(s, ms, f) && Sane(f)
    ensures Leads(s, ms + [m], Step(f, Prompt(f.deadline, m)))
  {
    hide Step, Sane;
    assert (ms + [m])[..|ms|] == ms;
    AfterSnoc(s, PromptRun(s.deadline, ms), Prompt(s.deadline, m));
    StepFixed(f, Prompt(f.deadline, m));
  }

  lemma LeadsSent(s: Fsm, ms: seq<Message>, f: Fsm)
    requires Sane(s) && Leads(s, ms, f) && Ready(f) && Sends(f.phase)
    ensures Leads(s, ms + [Ignored], f.(phase := Awaiting(f.phase)))
  {
    LeadsOn(s, ms, f, Ignored);
    hide Leads;
  }

  lemma LeadsRead(s: Fsm, ms: seq<Message>, f: Fsm, m: Message)
    requires Sane(s) && Leads(s, ms, f) && Ready(f) && Receives(f.phase)
    ensures Leads(s, ms + [m], Handle(f, m))
  {
    LeadsOn(s, ms, f, m);
    hide Leads, Handle;
  }

  lemma LeadsApproved(s: Fsm, ms: seq<Message>, f: Fsm)
    requires Sane(s) && Leads(s, ms, f) && Ready(f) && Checks(f.phase)
    ensures Leads(s, ms + [Ignored], Register(Approved(f)))
  {
    LeadsOn(s, ms, f, Ignored);
    hide Leads, Register;
  }

  /** The features and the capability question are behind the machine. */
  function Asked(deadline: int, datapath: Id): Fsm {
    Start(deadline, false).(phase := RecvMgmtCapabilityReply, features := Some(datapath))
  }

  lemma PromptFeatures(deadline: int, datapath: Id) returns (ms: seq<Message>)
    ensures Sane(Start(deadline, false)) && Leads(Start(deadline, false), ms, Asked(deadline, datapath))
  {
    var s := Start(deadline, false);
    ms := [];
    assert Leads(s, ms, s);
    LeadsSent(s, ms, s);
    LeadsSent(s, ms + [Ignored], s.(phase := SendConfig));
    ms := ms + [Ignored] + [Ignored];
    hide Leads;
    LeadsRead(s, ms, s.(phase := RecvFeaturesReply), FeaturesReply(Some(datapath)));
    ms := ms + [FeaturesReply(Some(datapath))];
    LeadsSent(s, ms, s.(phase := SendMgmtCapabilityReq, features := Some(datapath)));
    ms := ms + [Ignored];
  }

  /** A manager with this id has sent its resources. */
  function Supplied(deadline: int, datapath: Id, mgmt: Id): Fsm {
    Asked(deadline, datapath).(phase := SendMgmtConfigReq, mgmt := mgmt, resources := true)
  }

  lemma PromptResources(deadline: int, datapath: Id, mgmt: Id) returns (ms: seq<Message>)
    ensures Sane(Start(deadline, false)) && Leads(Start(deadline, false), ms, Supplied(deadline, datapath, mgmt))
  {
    hide Leads;
    var s, f := Start(deadline, false), Asked(deadline, datapath);
    ms := PromptFeatures(deadline, datapath);
    LeadsRead(s, ms, f, CapabilityReply(true, mgmt, true));
    ms := ms + [CapabilityReply(true, mgmt, true)];
    LeadsSent(s, ms, f.(phase := SendMgmtResourcesReq, mgmt := mgmt));
    ms := ms + [Ignored];
    LeadsRead(s, ms, f.(phase := RecvMgmtResourcesUpdate, mgmt := mgmt), ResourcesUpdate);
    ms := ms + [ResourcesUpdate];
  }

  /** A switch with any ids can get itself registered. */
  lemma PromptSwitchRegisters(deadline: int, datapath: Id, mgmt: Id) returns (ms: seq<Message>)
    requires datapath != 0
    ensures var s := Start(deadline, false);
      Sane(s) && After(s, PromptRun(deadline, ms)).registrations == [Switch(datapath, mgmt)]
  {
    hide After, PromptRun;
    var s, f := Start(deadline, false), Asked(deadline, datapath);
    ms := PromptFeatures(deadline, datapath);
    LeadsRead(s, ms, f, CapabilityReply(true, mgmt, false));
    ms := ms + [CapabilityReply(true, mgmt, false)];
    LeadsApproved(s, ms, f.(phase := CheckSwitchAuth, mgmt := mgmt));
    ms := ms + [Ignored];
  }

  /** A manager with any id can get itself registered with any config, an unreadable one
      included. */
  lemma PromptManagerRegisters(deadline: int, datapath: Id, mgmt: Id, config: Option<Config>) returns (ms: seq<Message>)
    requires mgmt != 0
    ensures var s := Start(deadline, false);
      Sane(s) && After(s, PromptRun(deadline, ms)).registrations == [Manager(mgmt, config)]
  {
    hide After, PromptRun;
    var s, f := Start(deadline, false), Supplied(deadline, datapath, mgmt);
    ms := PromptResources(deadline, datapath, mgmt);
    LeadsSent(s, ms, f);
    ms := ms + [Ignored];
    LeadsRead(s, ms, f.(phase := RecvMgmtConfigUpdate), ConfigUpdate(config));
    ms := ms + [ConfigUpdate(config)];
    LeadsApproved(s, ms, f.(phase := CheckMgmtAuth, config := config));
    ms := ms + [Ignored];
  }
}
