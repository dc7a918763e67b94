/** The join and leave notices that the registry posts over a whole run. */
module RegistryTrace {
  import opened RegistryModel

  // ----- Runs -----

  /** An event that cannot happen in a state changes nothing. */
  function Next(s: State, e: Event): State
    requires Inv(s)
  {
    if Enabled(s, e) then Step(s, e) else s
  }

  /** The registry after the events, from its empty start. */
  function After(es: seq<Event>): (s: State)
    ensures Inv(s)
  {
    if es == [] then EMPTY
    else
      var s := After(es[..|es| - 1]);
      var e := es[|es| - 1];
      assert Enabled(s, e) ==> Inv(Next(s, e)) by {
        if Enabled(s, e) { StepInv(s, e); }
      }
      Next(s, e)
  }

  lemma AfterSnoc(es: seq<Event>, e: Event)
    ensures After(es + [e]) == Next(After(es), e)
  {
    assert (es + [e])[..|es|] == es;
  }

  // ----- Notices -----

  function Weight(n: Notice, k: Kind, id: Id): int {
    if n == Join(k, id) then 1 else if n == Leave(k, id) then -1 else 0
  }

  /** Joins minus leaves. */
  function Balance(ns: seq<Notice>, k: Kind, id: Id): int {
    if ns == [] then 0 else Balance(ns[..|ns| - 1], k, id) + Weight(ns[|ns| - 1], k, id)
  }

  predicate Registered(s: State, k: Kind, id: Id) {
    if k.Datapath? then id in s.mgmtMap else id in s.swm
  }

  /** At no point of the trace has an id joined twice without leaving, or left without joining. */
  ghost predicate Alternates(ns: seq<Notice>) {
    ns == [] || (Alternates(ns[..|ns| - 1]) && forall k, id :: 0 <= Balance(ns, k, id) <= 1)
  }

  /** The trace alternates, and ends joined exactly for the ids that are registered. */
  ghost predicate Lawful(s: State) {
    && Alternates(s.posted)
    && forall k, id :: Balance(s.posted, k, id) == if Registered(s, k, id) then 1 else 0
  }

  /** A switch that is registered and named itself as its manager. */
  predicate SelfManaged(s: State, d: Id) {
    d in s.mgmtMap && s.mgmtMap[d] == d
  }

  lemma BalanceSnoc(ns: seq<Notice>, n: Notice, k: Kind, id: Id)
    ensures Balance(ns + [n], k, id) == Balance(ns, k, id) + Weight(n, k, id)
  {
    assert (ns + [n])[..|ns|] == ns;
  }

  /** One notice that says what has changed keeps the trace lawful. */
  lemma LawfulSnoc(s: State, t: State, n: Notice)
    requires Lawful(s) && t.posted == s.posted + [n]
    requires forall k, id | !(k == n.kind && id == n.id) :: Registered(t, k, id) == Registered(s, k, id)
    requires Registered(t, n.kind, n.id) == n.Join? && Registered(s, n.kind, n.id) != n.Join?
    ensures Lawful(t)
  {
    forall k, id
      ensures Balance(t.posted, k, id) == if Registered(t, k, id) then 1 else 0
    {
      BalanceSnoc(s.posted, n, k, id);
    }
    assert t.posted[..|s.posted|] == s.posted;
  }

  lemma CloseLawful(s: State, c: ConnId)
    requires Inv(s) && Lawful(s) && c in s.conns && !SelfManaged(s, s.conns[c].datapath)
    ensures Lawful(Close(s, c))
  {
    var conn := s.conns[c];
    if !conn.closing {
      var kind := if conn.datapath == conn.mgmt then Manager else Datapath;
      assert s.connectionMap[conn.datapath] == c;
      assert conn.datapath in s.mgmtMap.Keys + s.swm;
      LawfulSnoc(s, Close(s, c), Leave(kind, conn.datapath));
    }
  }

  lemma EvictedLawful(s: State, d: Id)
    requires Inv(s) && Lawful(s) && !SelfManaged(s, d)
    ensures Lawful(Evicted(s, d))
  {
    if d in s.connectionMap {
      CloseLawful(s, s.connectionMap[d]);
    }
  }

  lemma EnteredLawful(s: State, d: Id, m: Id, kind: Kind)
    requires Inv(s) && Lawful(s) && d !in s.connectionMap
    ensures Lawful(Entered(s, d, m, kind))
  {
    assert d !in s.mgmtMap.Keys + s.swm;
    LawfulSnoc(s, Entered(s, d, m, kind), Join(kind, d));
  }

  /** The event closes the connection under `d`, if there is one. */
  predicate Touches(s: State, e: Event, d: Id)
    requires Inv(s) && Enabled(s, e)
  {
    match e
    case RegisterSwitch(x, _) => d == x
    case RegisterManager(x) => d == x
    case CloseDatapath(x) => d == x
    case PollFindsEnd(c) => !s.conns[c].closing && d == s.conns[c].datapath
    case PollBegins(_) => false
    case PollEnds(_) => false
  }

  /** Every event is an eviction, an eviction with an entry, or no business of the registry. */
  lemma StepIs(s: State, e: Event, d: Id)
    requires Inv(s) && Enabled(s, e) && Touches(s, e, d)
    ensures match e
      case RegisterSwitch(_, m) => Step(s, e) == Entered(Evicted(s, d), d, m, Datapath)
      case RegisterManager(m) => m == d && Step(s, e) == Entered(Evicted(s, d), d, d, Manager)
      case _ => Step(s, e) == Evicted(s, d)
  {
    if e.RegisterSwitch? || e.RegisterManager? {
      RegisterIs(s, e);
    }
  }

  lemma StepLawful(s: State, e: Event)
    requires Inv(s) && Enabled(s, e) && Lawful(s)
    requires forall d | Touches(s, e, d) :: !SelfManaged(s, d)
    ensures Lawful(Step(s, e))
  {
    if d :| Touches(s, e, d) {
      StepIs(s, e, d);
      EvictedInv(s, d);
      EvictedLawful(s, d);
      if e.RegisterSwitch? {
        EnteredLawful(Evicted(s, d), d, e.mgmt, Datapath);
      } else if e.RegisterManager? {
        EnteredLawful(Evicted(s, d), d, d, Manager);
      }
    } else {
      Untouched(s, e);
      LawfulSame(s, Step(s, e));
    }
  }

  lemma Untouched(s: State, e: Event)
    requires Inv(s) && Enabled(s, e) && forall d :: !Touches(s, e, d)
    ensures var t := Step(s, e); t.posted == s.posted && t.mgmtMap == s.mgmtMap && t.swm == s.swm
  {
    match e {
      case RegisterSwitch(x, _) => assert Touches(s, e, x);
      case RegisterManager(x) => assert Touches(s, e, x);
      case CloseDatapath(x) => assert Touches(s, e, x);
      case PollFindsEnd(c) => assert s.conns[c].closing || Touches(s, e, s.conns[c].datapath);
      case _ =>
    }
  }

  lemma LawfulSame(s: State, t: State)
    requires Lawful(s) && t.posted == s.posted && t.mgmtMap == s.mgmtMap && t.swm == s.swm
    ensures Lawful(t)
  {
    assert forall k, id :: Registered(t, k, id) == Registered(s, k, id);
  }

  lemma EvictedMaps(s: State, d: Id)
    requires Inv(s)
    ensures Evicted(s, d).mgmtMap == s.mgmtMap - {d} && Evicted(s, d).swm == s.swm - {d}
  {
    assert d !in s.connectionMap ==> d !in s.mgmtMap.Keys + s.swm;
    if d in s.connectionMap && d in s.swm {
      assert s.conns[s.connectionMap[d]].mgmt == d;
    }
  }

  lemma StepMgmtMap(s: State, e: Event, d: Id)
    requires Inv(s) && Enabled(s, e) && Touches(s, e, d)
    ensures Step(s, e).mgmtMap == if e.RegisterSwitch? then (s.mgmtMap - {d})[d := e.mgmt] else s.mgmtMap - {d}
  {
    StepIs(s, e, d);
    EvictedMaps(s, d);
  }

  /** Only a registration of that kind makes a self-managed switch, and only an event that
      touches it ends it. */
  lemma StepSelfManaged(s: State, e: Event, d: Id)
    requires Inv(s) && Enabled(s, e)
    ensures SelfManaged(Step(s, e), d) <==> (SelfManaged(s, d) && !Touches(s, e, d)) || e == RegisterSwitch(d, d)
  {
    hide Inv, Step;
    if x :| Touches(s, e, x) {
      StepMgmtMap(s, e, x);
    } else {
      assert e.RegisterSwitch? ==> Touches(s, e, e.datapath);
      Untouched(s, e);
    }
  }

  /** No switch ever names itself as its manager. */
  predicate Proper(es: seq<Event>) {
    forall i | 0 <= i < |es| :: es[i].RegisterSwitch? ==> es[i].datapath != es[i].mgmt
  }

  lemma {:induction false} ProperRunIsLawful(es: seq<Event>)
    requires Proper(es)
    ensures Lawful(After(es))
    ensures forall d :: !SelfManaged(After(es), d)
    decreases |es|
  {
    if es == [] {
    } else {
      var p, e := es[..|es| - 1], es[|es| - 1];
      ProperRunIsLawful(p);
      var s := After(p);
      if Enabled(s, e) {
        StepLawful(s, e);
        forall d
          ensures !SelfManaged(Step(s, e), d)
        {
          StepSelfManaged(s, e, d);
        }
      }
    }
  }

  // ----- What a self-managed switch does to the trace -----

  lemma {:induction false} AlternatesPrefix(ns: seq<Notice>, more: seq<Notice>)
    requires ns <= more && Alternates(more)
    ensures Alternates(ns)
    decreases |more|
  {
    if |ns| < |more| {
      AlternatesPrefix(ns, more[..|more| - 1]);
    } else {
      assert ns == more;
    }
  }

  /** Closing a self-managed switch reports the leave of a manager that never joined. */
  lemma CloseSelfManaged(s: State, d: Id)
    requires Inv(s) && Lawful(s) && SelfManaged(s, d)
    ensures !Alternates(Evicted(s, d).posted)
  {
    var n := Leave(Manager, d);
    assert d in s.mgmtMap.Keys + s.swm && d !in s.swm;
    assert Evicted(s, d).posted == s.posted + [n];
    BalanceSnoc(s.posted, n, Manager, d);
    assert Balance(s.posted, Manager, d) == 0;
  }

  lemma StepExtends(s: State, e: Event)
    requires Inv(s) && Enabled(s, e)
    ensures s.posted <= Step(s, e).posted
    ensures forall d | Touches(s, e, d) :: Evicted(s, d).posted <= Step(s, e).posted
  {
    hide Unique, Shared, Polled, Accounted;
    if d :| Touches(s, e, d) {
      StepIs(s, e, d);
    } else {
      Untouched(s, e);
    }
  }

  /** Closing a self-managed switch breaks the trace for good. */
  lemma StepBreaks(s: State, e: Event, d: Id)
    requires Inv(s) && Enabled(s, e) && Lawful(s) && SelfManaged(s, d) && Touches(s, e, d)
    ensures !Alternates(Step(s, e).posted)
  {
    CloseSelfManaged(s, d);
    StepExtends(s, e);
    if Alternates(Step(s, e).posted) {
      AlternatesPrefix(Evicted(s, d).posted, Step(s, e).posted);
    }
  }

  /** A trace is lawful, or has gone wrong for good. */
  ghost predicate Decided(s: State) {
    Lawful(s) || !Alternates(s.posted)
  }

  /** The switch under `d` is its own manager, or the trace has gone wrong. */
  ghost predicate Spoiled(s: State, d: Id) {
    SelfManaged(s, d) || !Alternates(s.posted)
  }

  lemma BrokenStep(s: State, e: Event)
    requires Inv(s) && Enabled(s, e) && !Alternates(s.posted)
    ensures !Alternates(Step(s, e).posted)
  {
    StepExtends(s, e);
    if Alternates(Step(s, e).posted) {
      AlternatesPrefix(s.posted, Step(s, e).posted);
    }
  }

  lemma DecidedStep(s: State, e: Event)
    requires Inv(s) && Enabled(s, e) && Decided(s)
    ensures Decided(Step(s, e))
  {
    if !Alternates(s.posted) {
      BrokenStep(s, e);
    } else if d :| Touches(s, e, d) && SelfManaged(s, d) {
      StepBreaks(s, e, d);
    } else {
      StepLawful(s, e);
    }
  }

  lemma SpoiledStep(s: State, e: Event, d: Id)
    requires Inv(s) && Enabled(s, e) && Decided(s) && (Spoiled(s, d) || e == RegisterSwitch(d, d))
    ensures Spoiled(Step(s, e), d)
  {
    if !Alternates(s.posted) {
      BrokenStep(s, e);
    } else if SelfManaged(s, d) && Touches(s, e, d) {
      StepBreaks(s, e, d);
    } else {
      StepSelfManaged(s, e, d);
    }
  }

  lemma {:induction false} RunDecided(es: seq<Event>)
    ensures Decided(After(es))
    decreases |es|
  {
    if es == [] {
      assert Lawful(EMPTY);
    } else {
      var p, e := es[..|es| - 1], es[|es| - 1];
      RunDecided(p);
      if Enabled(After(p), e) {
        DecidedStep(After(p), e);
      }
    }
  }

  lemma {:induction false} RunSpoiled(es: seq<Event>, i: nat, d: Id)
    requires i < |es| && es[i] == RegisterSwitch(d, d)
    ensures Spoiled(After(es), d)
    decreases |es|
  {
    var p, e := es[..|es| - 1], es[|es| - 1];
    RunDecided(p);
    if i < |p| {
      RunSpoiled(p, i, d);
    }
    if Enabled(After(p), e) {
      SpoiledStep(After(p), e, d);
    }
  }

  /** Once a switch has named itself as its manager, the notices are wrong or closing it
      makes them wrong. */
  lemma ImproperRunBreaks(es: seq<Event>, i: nat, d: Id)
    requires i < |es| && es[i] == RegisterSwitch(d, d)
    ensures !Lawful(After(es)) || !Lawful(After(es + [CloseDatapath(d)]))
  {
    RunSpoiled(es, i, d);
    if Lawful(After(es)) {
      AfterSnoc(es, CloseDatapath(d));
      StepBreaks(After(es), CloseDatapath(d), d);
    }
  }

  /** The shortest such run: a switch joins, and a manager leaves. */
  lemma SelfManagedExample(d: Id)
    ensures After([RegisterSwitch(d, d), CloseDatapath(d)]).posted == [Join(Datapath, d), Leave(Manager, d)]
  {
    hide After, Unique, Shared, Polled, Accounted;
    var s := After([RegisterSwitch(d, d)]);
    OnlySwitch(d, d);
    AfterSnoc([RegisterSwitch(d, d)], CloseDatapath(d));
    assert [RegisterSwitch(d, d)] + [CloseDatapath(d)] == [RegisterSwitch(d, d), CloseDatapath(d)];
    assert s.conns[0] == Conn(d, d, false, 0) && s.connectionMap[d] == 0;
    assert Next(s, CloseDatapath(d)) == Close(s, 0);
  }

  lemma OnlySwitch(d: Id, m: Id)
    ensures After([RegisterSwitch(d, m)]) == Entered(EMPTY, d, m, Datapath)
  {
    hide Unique, Shared, Polled, Accounted;
    var none: seq<Event> := [];
    AfterSnoc(none, RegisterSwitch(d, m));
    assert none + [RegisterSwitch(d, m)] == [RegisterSwitch(d, m)];
    RegisterIs(EMPTY, RegisterSwitch(d, m));
  }

  /** Joins and leaves match the registry, and still do after any one id is closed, if and
      only if no switch named itself as its manager. */
  lemma LawfulIffProper(es: seq<Event>)
    ensures (Lawful(After(es)) && forall d :: Lawful(After(es + [CloseDatapath(d)]))) <==> Proper(es)
  {
    if Proper(es) {
      ProperRunIsLawful(es);
      forall d
        ensures Lawful(After(es + [CloseDatapath(d)]))
      {
        ProperRunIsLawful(es + [CloseDatapath(d)]);
      }
    } else {
      var i :| 0 <= i < |es| && es[i].RegisterSwitch? && es[i].datapath == es[i].mgmt;
      ImproperRunBreaks(es, i, es[i].mgmt);
    }
  }

  /** No event up to now has closed a self-managed switch. */
  ghost predicate Unspoiled(es: seq<Event>) {
    forall i | 0 <= i < |es| :: Harmless(After(es[..i]), es[i])
  }

  ghost predicate Harmless(s: State, e: Event)
    requires Inv(s)
  {
    Enabled(s, e) ==> forall d | Touches(s, e, d) :: !SelfManaged(s, d)
  }

  /** Joins and leaves match the registry if and only if no event has closed a self-managed
      switch. */
  lemma {:induction false} LawfulIffUnspoiled(es: seq<Event>)
    ensures Lawful(After(es)) <==> Unspoiled(es)
    decreases |es|
  {
    hide After, Next, Lawful, Unspoiled, Harmless, Inv;
    if es == [] {
      UnspoiledNone();
    } else {
      var p, e := es[..|es| - 1], es[|es| - 1];
      assert es == p + [e];
      LawfulIffUnspoiled(p);
      UnspoiledSnoc(p, e);
      AfterSnoc(p, e);
      NextLawful(p, e);
    }
  }

  lemma UnspoiledNone()
    ensures Unspoiled([]) && Lawful(After([]))
  {
    hide Harmless;
    ProperRunIsLawful([]);
  }

  lemma UnspoiledSnoc(p: seq<Event>, e: Event)
    ensures Unspoiled(p + [e]) <==> Unspoiled(p) && Harmless(After(p), e)
  {
    hide After, Harmless;
    var es := p + [e];
    assert es[..|p|] == p;
    forall i | 0 <= i < |p|
      ensures es[..i] == p[..i] && es[i] == p[i]
    {
    }
    if Unspoiled(es) {
      assert Harmless(After(es[..|p|]), es[|p|]);
      forall i | 0 <= i < |p|
        ensures Harmless(After(p[..i]), p[i])
      {
        assert Harmless(After(es[..i]), es[i]);
      }
    }
  }

  lemma NextLawful(p: seq<Event>, e: Event)
    ensures Lawful(Next(After(p), e)) <==> Lawful(After(p)) && Harmless(After(p), e)
  {
    RunDecided(p);
    hide After, Lawful, Alternates, Touches, SelfManaged, Inv;
    var s := After(p);
    if Enabled(s, e) {
      if !Lawful(s) {
        BrokenStep(s, e);
        LawfulAlternates(Step(s, e));
      } else if d :| Touches(s, e, d) && SelfManaged(s, d) {
        StepBreaks(s, e, d);
        LawfulAlternates(Step(s, e));
      } else {
        StepLawful(s, e);
      }
    }
  }

  lemma LawfulAlternates(s: State)
    ensures Lawful(s) ==> Alternates(s.posted)
  {
  }

  // ----- Lifetime -----

  lemma EvictedFrees(s: State, d: Id, c: ConnId)
    requires Inv(s) && c in s.conns
    ensures c in Evicted(s, d).freed <==> !s.conns[c].closing && s.conns[c].datapath == d && s.conns[c].pollCount == 0
  {
    assert c !in s.freed;
  }

  lemma PollFrees(s: State, e: Event, c: ConnId)
    requires Inv(s) && Enabled(s, e) && c in s.conns && forall d :: !Touches(s, e, d)
    ensures c in Step(s, e).freed <==> s.conns[c].closing && e == PollEnds(c) && s.conns[c].pollCount == 1
  {
    assert c !in s.freed;
    match e {
      case PollFindsEnd(x) => assert s.conns[x].closing || Touches(s, e, s.conns[x].datapath);
      case RegisterSwitch(x, _) => assert Touches(s, e, x);
      case RegisterManager(x) => assert Touches(s, e, x);
      case CloseDatapath(x) => assert Touches(s, e, x);
      case _ =>
    }
  }

  /** One event frees a connection exactly if it closes it while nobody polls it, or ends
      the last poll of it when it is already closing. */
  lemma FreedExactlyWhen(s: State, e: Event, c: ConnId)
    requires Inv(s) && Enabled(s, e) && c in s.conns
    ensures c in Step(s, e).freed <==>
              || (!s.conns[c].closing && Touches(s, e, s.conns[c].datapath) && s.conns[c].pollCount == 0)
              || (s.conns[c].closing && e == PollEnds(c) && s.conns[c].pollCount == 1)
  {
    if d :| Touches(s, e, d) {
      StepIs(s, e, d);
      EvictedFrees(s, d, c);
    } else {
      PollFrees(s, e, c);
    }
  }

  /** Over every run, no connection is freed twice or while a poll of it is in flight, and
      one that is closing still exists only because it is being polled. */
  lemma LifetimesHold(es: seq<Event>)
    ensures var s := After(es);
      && (forall i, j | 0 <= i < j < |s.freed| :: s.freed[i] != s.freed[j])
      && (forall c | c in s.freed :: c !in s.conns && c !in s.inFlight)
      && (forall c | c in s.conns && s.conns[c].closing :: c in s.inFlight)
  {
    assert Inv(After(es));
  }
}
