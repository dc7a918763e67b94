/** The registry of OpenFlow connections and the lifetime of connection objects, as a
transition system.  Polls of one connection can overlap, and a connection can be closed
while it is being polled; it is then freed when the last of its polls ends. */
module RegistryModel {

  type Id = nat
  type ConnId = nat

  datatype Conn = Conn(datapath: Id, mgmt: Id, closing: bool, pollCount: nat)

  datatype Kind = Datapath | Manager

  datatype Notice = Join(kind: Kind, id: Id) | Leave(kind: Kind, id: Id)

  /** `conns` are the connection objects that exist and `freed` those that were deleted, in
      order.  `inFlight` are the polls that threads are in the middle of.  `swm` are the
      management ids with a switch manager. */
  datatype State = State(
    conns: map<ConnId, Conn>,
    created: ConnId,
    freed: seq<ConnId>,
    pollables: set<ConnId>,
    inFlight: multiset<ConnId>,
    connectionMap: map<Id, ConnId>,
    mgmtMap: map<Id, Id>,
    swm: set<Id>,
    posted: seq<Notice>)

  datatype Event =
    | RegisterSwitch(datapath: Id, mgmt: Id)
    | RegisterManager(mgmt: Id)
    | CloseDatapath(datapath: Id)
    | PollBegins(conn: ConnId)
    | PollFindsEnd(conn: ConnId)
    | PollEnds(conn: ConnId)

  const EMPTY := State(map[], 0, [], {}, multiset{}, map[], map[], {}, [])

  // ----- Steps -----

  function Free(s: State, c: ConnId): State {
    s.(conns := s.conns - {c}, freed := s.freed + [c])
  }

  function Close(s: State, c: ConnId): State
    requires c in s.conns
  {
    var conn := s.conns[c];
    if conn.closing then s
    else
      var isManager := conn.datapath == conn.mgmt;
      var t := s.(
        conns := s.conns[c := conn.(closing := true)],
        swm := if isManager then s.swm - {conn.mgmt} else s.swm,
        posted := s.posted + [if isManager then Leave(Manager, conn.mgmt) else Leave(Datapath, conn.datapath)],
        connectionMap := s.connectionMap - {conn.datapath},
        mgmtMap := s.mgmtMap - {conn.datapath},
        pollables := s.pollables - {c});
      if conn.pollCount == 0 then Free(t, c) else t
  }

  /** A new connection object, in the poll loop but not yet in the registry. */
  function Create(s: State, datapath: Id, mgmt: Id): State {
    s.(conns := s.conns[s.created := Conn(datapath, mgmt, false, 0)],
       created := s.created + 1,
       pollables := s.pollables + {s.created})
  }

  /** The connection that holds the id, if any, is closed before the new one is entered. */
  function RegisterConn(s: State, datapath: Id, mgmt: Id): State
    requires datapath in s.connectionMap ==> s.connectionMap[datapath] in s.conns
  {
    var t := Create(s, datapath, mgmt);
    var u := if datapath in t.connectionMap then Close(t, t.connectionMap[datapath]) else t;
    u.(connectionMap := u.connectionMap[datapath := s.created])
  }

  function PollBegun(s: State, c: ConnId): State
    requires c in s.conns
  {
    s.(conns := s.conns[c := s.conns[c].(pollCount := s.conns[c].pollCount + 1)],
       inFlight := s.inFlight + multiset{c})
  }

  function PollEnded(s: State, c: ConnId): State
    requires c in s.conns && s.conns[c].pollCount > 0
  {
    var conn := s.conns[c].(pollCount := s.conns[c].pollCount - 1);
    var t := s.(conns := s.conns[c := conn], inFlight := s.inFlight - multiset{c});
    if conn.pollCount == 0 && conn.closing then Free(t, c) else t
  }

  predicate Enabled(s: State, e: Event) {
    match e
    case PollBegins(c) => c in s.pollables
    case PollFindsEnd(c) => c in s.inFlight
    case PollEnds(c) => c in s.inFlight
    case _ => true
  }

  function Step(s: State, e: Event): State
    requires Inv(s) && Enabled(s, e)
  {
    match e
    case RegisterSwitch(d, m) =>
      var t := RegisterConn(s, d, m);
      t.(mgmtMap := t.mgmtMap[d := m], posted := t.posted + [Join(Datapath, d)])
    case RegisterManager(m) =>
      var t := RegisterConn(s, m, m);
      t.(swm := t.swm + {m}, posted := t.posted + [Join(Manager, m)])
    case CloseDatapath(d) => if d in s.connectionMap then Close(s, s.connectionMap[d]) else s
    case PollBegins(c) => PollBegun(s, c)
    case PollFindsEnd(c) => Close(s, c)
    case PollEnds(c) => PollEnded(s, c)
  }

  // ----- Invariants -----

  /** A registered id leads to the one connection with that id that is not closing. */
  predicate Unique(s: State) {
    && (forall d | d in s.connectionMap ::
          var c := s.connectionMap[d];
          c in s.conns && s.conns[c].datapath == d && !s.conns[c].closing)
    && (forall c | c in s.conns && !s.conns[c].closing ::
          s.conns[c].datapath in s.connectionMap && s.connectionMap[s.conns[c].datapath] == c)
  }

  /** The switches and the managers share out the registered ids. */
  predicate Shared(s: State) {
    && s.mgmtMap.Keys !! s.swm
    && s.mgmtMap.Keys + s.swm == s.connectionMap.Keys
    && (forall d | d in s.mgmtMap && d in s.connectionMap && s.connectionMap[d] in s.conns ::
          s.mgmtMap[d] == s.conns[s.connectionMap[d]].mgmt)
    && (forall m | m in s.swm && m in s.connectionMap && s.connectionMap[m] in s.conns ::
          s.conns[s.connectionMap[m]].mgmt == m)
  }

  /** Exactly the connections that exist are polled, each as often as its count says; those
      that are closing are still polled, and the others are what the poll loop polls. */
  predicate Polled(s: State) {
    && (forall c | c in s.conns :: s.inFlight[c] == s.conns[c].pollCount)
    && (forall c | c in s.conns && s.conns[c].closing :: s.conns[c].pollCount > 0)
    && (forall c | c in s.inFlight :: c in s.conns)
    && (forall c | c in s.pollables :: c in s.conns && !s.conns[c].closing)
    && (forall c | c in s.conns && !s.conns[c].closing :: c in s.pollables)
  }

  /** Every connection ever created exists or was freed, not both, and no two deletions
      are of the same one. */
  predicate Accounted(s: State) {
    && (forall c: nat | c < s.created :: c in s.conns || c in s.freed)
    && (forall c | c in s.conns :: c < s.created)
    && (forall c | c in s.freed :: c !in s.conns && c < s.created)
    && (forall i, j | 0 <= i < j < |s.freed| :: s.freed[i] != s.freed[j])
  }

  predicate Inv(s: State) {
    Unique(s) && Shared(s) && Polled(s) && Accounted(s)
  }

  lemma CloseUnique(s: State, c: ConnId)
    requires Unique(s) && c in s.conns
    ensures Unique(Close(s, c))
  {
  }

  lemma CloseShared(s: State, c: ConnId)
    requires Unique(s) && Shared(s) && c in s.conns
    ensures Shared(Close(s, c))
  {
    var t, conn := Close(s, c), s.conns[c];
    if !conn.closing {
      assert conn.datapath in s.connectionMap && s.connectionMap[conn.datapath] == c;
      assert conn.datapath != conn.mgmt ==> conn.datapath !in s.swm;
      assert t.connectionMap.Keys == s.connectionMap.Keys - {conn.datapath};
      assert t.mgmtMap.Keys == s.mgmtMap.Keys - {conn.datapath};
      assert t.swm == s.swm - {conn.datapath};
    }
  }

  /** Two states that differ in one connection. */
  predicate Elsewhere(s: State, t: State, c: ConnId) {
    && (forall x | x in s.conns && x != c :: x in t.conns && t.conns[x] == s.conns[x])
    && (forall x | x in t.conns && x != c :: x in s.conns)
    && s.pollables - {c} == t.pollables - {c}
    && s.inFlight[c := 0] == t.inFlight[c := 0]
  }

  lemma PolledElsewhere(s: State, t: State, c: ConnId)
    requires Polled(s) && Elsewhere(s, t, c)
    requires if c in t.conns then
               && t.inFlight[c] == t.conns[c].pollCount && (t.conns[c].closing ==> t.conns[c].pollCount > 0)
               && (c in t.pollables <==> !t.conns[c].closing)
             else t.inFlight[c] == 0 && c !in t.pollables
    ensures Polled(t)
  {
    forall x | x != c
      ensures t.inFlight[x] == s.inFlight[x] && (x in t.pollables <==> x in s.pollables)
    {
      assert t.inFlight[c := 0][x] == s.inFlight[c := 0][x];
      assert x in t.pollables - {c} <==> x in s.pollables - {c};
    }
  }

  lemma ClosePolled(s: State, c: ConnId)
    requires Polled(s) && c in s.conns
    ensures Polled(Close(s, c))
  {
    var t := Close(s, c);
    assert Elsewhere(s, t, c);
    PolledElsewhere(s, t, c);
  }

  lemma FreeAccounted(s: State, t: State, c: ConnId)
    requires Accounted(s) && c in s.conns
    requires t.conns.Keys == s.conns.Keys - {c} && t.created == s.created && t.freed == s.freed + [c]
    ensures Accounted(t)
  {
    assert c !in s.freed && c in t.freed;
    assert forall x | x in s.freed :: x in t.freed;
  }

  lemma CloseAccounted(s: State, c: ConnId)
    requires Accounted(s) && c in s.conns
    ensures Accounted(Close(s, c))
  {
    var conn := s.conns[c];
    if !conn.closing && conn.pollCount == 0 {
      FreeAccounted(s, Close(s, c), c);
    }
  }

  lemma CloseInv(s: State, c: ConnId)
    requires Inv(s) && c in s.conns
    ensures Inv(Close(s, c))
  {
    CloseUnique(s, c);
    CloseShared(s, c);
    ClosePolled(s, c);
    CloseAccounted(s, c);
  }

  // A registration is an eviction followed by an entry.

  function Evicted(s: State, d: Id): State
    requires Inv(s)
  {
    if d in s.connectionMap then Close(s, s.connectionMap[d]) else s
  }

  function Entered(s: State, d: Id, m: Id, kind: Kind): State {
    var t := Create(s, d, m);
    t.(connectionMap := t.connectionMap[d := s.created],
       mgmtMap := if kind.Datapath? then t.mgmtMap[d := m] else t.mgmtMap,
       swm := if kind.Manager? then t.swm + {d} else t.swm,
       posted := t.posted + [Join(kind, d)])
  }

  lemma CloseAfterCreate(s: State, c: ConnId, d: Id, m: Id)
    requires c in s.conns && c != s.created
    ensures Close(Create(s, d, m), c) == Create(Close(s, c), d, m)
  {
    var blank, conn := Conn(d, m, false, 0), s.conns[c].(closing := true);
    var closed := s.conns[c := conn];
    var both := s.conns[s.created := blank][c := conn];
    assert both == closed[s.created := blank];
    assert both - {c} == (closed - {c})[s.created := blank];
    assert (s.pollables + {s.created}) - {c} == (s.pollables - {c}) + {s.created};
  }

  lemma RegisterConnIs(s: State, d: Id, m: Id)
    requires Inv(s)
    ensures var u := Evicted(s, d);
      RegisterConn(s, d, m) == Create(u, d, m).(connectionMap := u.connectionMap[d := s.created])
  {
    if d in s.connectionMap {
      CloseAfterCreate(s, s.connectionMap[d], d, m);
    }
  }

  /** Once the holder of an id has been closed, no map knows the id. */
  lemma EvictedClears(s: State, d: Id, m: Id)
    requires Inv(s)
    ensures d in s.connectionMap ==> s.connectionMap[d] in s.conns && s.connectionMap[d] < s.created
    ensures d !in RegisterConn(s, d, m).mgmtMap && d !in RegisterConn(s, d, m).swm
  {
    RegisterConnIs(s, d, m);
    if d in s.connectionMap {
      CloseInv(s, s.connectionMap[d]);
    }
    assert d !in Evicted(s, d).mgmtMap.Keys + Evicted(s, d).swm;
  }

  lemma EnterUnique(s: State, d: Id, m: Id, kind: Kind)
    requires Unique(s) && Accounted(s) && d !in s.connectionMap
    ensures Unique(Entered(s, d, m, kind))
  {
  }

  lemma EnterShared(s: State, d: Id, m: Id, kind: Kind)
    requires Unique(s) && Shared(s) && Accounted(s) && d !in s.connectionMap && (kind.Manager? ==> d == m)
    ensures Shared(Entered(s, d, m, kind))
  {
    var t := Entered(s, d, m, kind);
    assert t.connectionMap.Keys == s.connectionMap.Keys + {d};
    assert kind.Datapath? ==> t.mgmtMap.Keys == s.mgmtMap.Keys + {d};
  }

  lemma EnterPolled(s: State, d: Id, m: Id, kind: Kind)
    requires Polled(s) && Accounted(s)
    ensures Polled(Entered(s, d, m, kind))
  {
    assert s.created !in s.conns;
    assert s.created !in s.inFlight;
  }

  lemma EnterAccounted(s: State, d: Id, m: Id, kind: Kind)
    requires Accounted(s)
    ensures Accounted(Entered(s, d, m, kind))
  {
  }

  lemma EnterInv(s: State, d: Id, m: Id, kind: Kind)
    requires Inv(s) && d !in s.connectionMap && (kind.Manager? ==> d == m)
    ensures Inv(Entered(s, d, m, kind))
  {
    EnterUnique(s, d, m, kind);
    EnterShared(s, d, m, kind);
    EnterPolled(s, d, m, kind);
    EnterAccounted(s, d, m, kind);
  }

  lemma EvictedInv(s: State, d: Id)
    requires Inv(s)
    ensures Inv(Evicted(s, d)) && d !in Evicted(s, d).connectionMap && Evicted(s, d).created == s.created
  {
    if d in s.connectionMap {
      CloseInv(s, s.connectionMap[d]);
    }
  }

  lemma RegisterIs(s: State, e: Event)
    requires Inv(s) && (e.RegisterSwitch? || e.RegisterManager?)
    ensures var kind := if e.RegisterSwitch? then Datapath else Manager;
            var d := if e.RegisterSwitch? then e.datapath else e.mgmt;
            Step(s, e) == Entered(Evicted(s, d), d, e.mgmt, kind)
  {
    RegisterConnIs(s, if e.RegisterSwitch? then e.datapath else e.mgmt, e.mgmt);
  }

  /** A replaced connection's leave is posted before the join of its replacement. */
  lemma ReplacementOrder(s: State, e: Event)
    requires Inv(s) && (e.RegisterSwitch? || e.RegisterManager?)
    requires (if e.RegisterSwitch? then e.datapath else e.mgmt) in s.connectionMap
    ensures var d := if e.RegisterSwitch? then e.datapath else e.mgmt;
            var held := s.conns[s.connectionMap[d]];
            var leave := if held.datapath == held.mgmt then Leave(Manager, d) else Leave(Datapath, d);
            var join := Join(if e.RegisterSwitch? then Datapath else Manager, d);
      Step(s, e).posted == s.posted + [leave] + [join]
  {
    hide Shared, Polled, Accounted;
    RegisterIs(s, e);
  }

  // Polls do not touch the registry.

  lemma PollBegunInv(s: State, c: ConnId)
    requires Inv(s) && c in s.pollables
    ensures Inv(PollBegun(s, c))
  {
    PollBegunRegistry(s, c);
    PollBegunPolled(s, c);
  }

  lemma PollBegunRegistry(s: State, c: ConnId)
    requires Unique(s) && Shared(s) && c in s.conns
    ensures Unique(PollBegun(s, c)) && Shared(PollBegun(s, c))
  {
  }

  lemma PollBegunPolled(s: State, c: ConnId)
    requires Polled(s) && c in s.pollables
    ensures Polled(PollBegun(s, c))
  {
  }

  lemma PollEndedRegistry(s: State, c: ConnId)
    requires Unique(s) && Shared(s) && c in s.conns && s.conns[c].pollCount > 0
    ensures Unique(PollEnded(s, c)) && Shared(PollEnded(s, c))
  {
  }

  lemma PollEndedPolled(s: State, c: ConnId)
    requires Polled(s) && c in s.conns && s.conns[c].pollCount > 0
    ensures Polled(PollEnded(s, c))
  {
    var t := PollEnded(s, c);
    assert t.inFlight[c] == s.inFlight[c] - 1;
    assert Elsewhere(s, t, c);
    PolledElsewhere(s, t, c);
  }

  lemma PollEndedAccounted(s: State, c: ConnId)
    requires Accounted(s) && c in s.conns && s.conns[c].pollCount > 0
    ensures Accounted(PollEnded(s, c))
  {
    if s.conns[c].closing && s.conns[c].pollCount == 1 {
      FreeAccounted(s, PollEnded(s, c), c);
    }
  }

  lemma PollEndedInv(s: State, c: ConnId)
    requires Inv(s) && c in s.conns && s.conns[c].pollCount > 0
    ensures Inv(PollEnded(s, c))
  {
    PollEndedRegistry(s, c);
    PollEndedPolled(s, c);
    PollEndedAccounted(s, c);
  }

  lemma StepInv(s: State, e: Event)
    requires Inv(s) && Enabled(s, e)
    ensures Inv(Step(s, e))
  {
    match e {
      case RegisterSwitch(d, m) =>
        RegisterIs(s, e);
        EvictedInv(s, d);
        EnterInv(Evicted(s, d), d, m, Datapath);
      case RegisterManager(m) =>
        RegisterIs(s, e);
        EvictedInv(s, m);
        EnterInv(Evicted(s, m), m, m, Manager);
      case CloseDatapath(d) => EvictedInv(s, d);
      case PollFindsEnd(c) => CloseInv(s, c);
      case PollBegins(c) => PollBegunInv(s, c);
      case PollEnds(c) => PollEndedInv(s, c);
    }
  }
}

/** The registry as the object that keeps the connections. */
module Registry {
  import opened RegistryModel

  const ESRCH := 3

  class ConnectionRegistry {
    var conns: map<ConnId, Conn>
    var created: ConnId
    var freed: seq<ConnId>
    var pollables: set<ConnId>
    ghost var inFlight: multiset<ConnId>
    var connectionMap: map<Id, ConnId>
    var mgmtMap: map<Id, Id>
    var swm: set<Id>
    var posted: seq<Notice>

    ghost function View(): State
      reads this
    {
      State(conns, created, freed, pollables, inFlight, connectionMap, mgmtMap, swm, posted)
    }

    ghost predicate Valid()
      reads this
    {
      Inv(View())
    }

    constructor ()
      ensures View() == EMPTY && Valid()
    {
      conns, created, freed, pollables, inFlight := map[], 0, [], {}, multiset{};
      connectionMap, mgmtMap, swm, posted := map[], map[], {}, [];
    }

    method Delete(c: ConnId)
      requires c in conns
      modifies this
      ensures View() == Free(old(View()), c)
    {
      conns := conns - {c};
      freed := freed + [c];
    }

    /** Takes the connection out of the registry and the poll loop, tells of the leave, and
        deletes the connection unless it is being polled. */
    method CloseConn(c: ConnId)
      requires c in conns
      modifies this
      ensures View() == Close(old(View()), c)
    {
      if !conns[c].closing {
        conns := conns[c := conns[c].(closing := true)];
        var datapath, mgmt := conns[c].datapath, conns[c].mgmt;
        if datapath == mgmt {
          swm := swm - {mgmt};
          posted := posted + [Leave(Manager, mgmt)];
        } else {
          posted := posted + [Leave(Datapath, datapath)];
        }
        connectionMap := connectionMap - {datapath};
        mgmtMap := mgmtMap - {datapath};
        pollables := pollables - {c};
        if conns[c].pollCount == 0 {
          Delete(c);
        }
      }
    }

    /** Enters a new connection under its id; one that holds the id already is closed. */
    method Enroll(datapath: Id, mgmt: Id)
      requires datapath in connectionMap ==> connectionMap[datapath] in conns
      modifies this
      ensures View() == RegisterConn(old(View()), datapath, mgmt)
    {
      hide Close;
      var c := created;
      conns := conns[c := Conn(datapath, mgmt, false, 0)];
      created := created + 1;
      pollables := pollables + {c};
      if datapath in connectionMap {
        CloseConn(connectionMap[datapath]);
      }
      connectionMap := connectionMap[datapath := c];
    }

    method RegisterDatapath(datapath: Id, mgmt: Id)
      requires datapath in connectionMap ==> connectionMap[datapath] in conns
      modifies this
      ensures var t := RegisterConn(old(View()), datapath, mgmt);
        View() == t.(mgmtMap := if datapath in t.mgmtMap then t.mgmtMap else t.mgmtMap[datapath := mgmt],
                     posted := t.posted + [Join(Datapath, datapath)])
    {
      Enroll(datapath, mgmt);
      if datapath !in mgmtMap {
        mgmtMap := mgmtMap[datapath := mgmt];
      }
      posted := posted + [Join(Datapath, datapath)];
    }

    method RegisterMgmt(mgmt: Id)
      requires mgmt in connectionMap ==> connectionMap[mgmt] in conns
      modifies this
      ensures var t := RegisterConn(old(View()), mgmt, mgmt);
        View() == t.(swm := t.swm + {mgmt}, posted := t.posted + [Join(Manager, mgmt)])
    {
      Enroll(mgmt, mgmt);
      swm := swm + {mgmt};
      posted := posted + [Join(Manager, mgmt)];
    }

    method CloseOpenflowConnection(datapath: Id) returns (error: int)
      requires datapath in connectionMap ==> connectionMap[datapath] in conns
      modifies this
      ensures datapath in old(connectionMap) ==>
                error == 0 && View() == Close(old(View()), old(connectionMap)[datapath])
      ensures datapath !in old(connectionMap) ==> error == ESRCH && unchanged(this)
    {
      if datapath !in connectionMap {
        return ESRCH;
      }
      CloseConn(connectionMap[datapath]);
      error := 0;
    }

    /** The first half of a poll, up to where the connection is read. */
    method PollStart(c: ConnId)
      requires c in conns
      modifies this
      ensures View() == PollBegun(old(View()), c)
    {
      conns := conns[c := conns[c].(pollCount := conns[c].pollCount + 1)];
      inFlight := inFlight + multiset{c};
    }

    /** The second half of a poll. */
    method PollFinish(c: ConnId)
      requires c in conns && conns[c].pollCount > 0
      modifies this
      ensures View() == PollEnded(old(View()), c)
    {
      var p := conns[c].pollCount - 1;
      conns := conns[c := conns[c].(pollCount := p)];
      inFlight := inFlight - multiset{c};
      if p == 0 && conns[c].closing {
        Delete(c);
      }
    }

    /** Whatever happens next, the registry takes the step of the model. */
    method Happen(e: Event)
      requires Valid() && Enabled(View(), e)
      modifies this
      ensures Valid() && View() == Step(old(View()), e)
    {
      StepInv(View(), e);
      match e
      case RegisterSwitch(d, m) =>
        EvictedClears(View(), d, m);
        RegisterDatapath(d, m);
      case RegisterManager(m) => RegisterMgmt(m);
      case CloseDatapath(d) => var error := CloseOpenflowConnection(d);
      case PollBegins(c) => PollStart(c);
      case PollFindsEnd(c) => CloseConn(c);
      case PollEnds(c) => PollFinish(c);
    }
  }
}
