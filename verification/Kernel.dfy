/** The component kernel: the methods that install components, proved against the
transition system of KernelModel.  A method that can raise an error returns it, and
gives the steps it took as a ghost result. */
module Kernel {
  import opened KernelModel
  import opened KernelRuns
  import opened KernelOutcome

  datatype Reason =
    | InstalledBefore(name: Name)
    | NoDescription(name: Name)
    | NoUninstalling
    | UnknownContext(name: Name)
    | CannotChange(name: Name, because: Explanation)

  datatype Outcome = Done | Thrown(reason: Reason)

  /** `o` reports a component that a dependency check wants and nobody describes. */
  ghost predicate Missing(s: State, o: Outcome) {
    && o.Thrown? && o.reason.NoDescription?
    && Lookup(s.deployers, o.reason.name).None?
    && exists parent :: Wants(s, parent, o.reason.name)
  }

  /** How a change of state that resolves dependencies ends: at rest, reporting whether the
      component is where it should be, or with a missing description. */
  ghost predicate Settles(t: State, installing: bool, name: Name, to: ComponentState, o: Outcome) {
    if o.Thrown? && o.reason.NoDescription? then installing && Missing(t, o)
    else
      && !installing && AtRest(t) && name in t.contexts
      && o == if t.contexts[name].current == to then Done
              else Thrown(CannotChange(name, Explain(t, name, {})))
  }

  /** Every component in the states below `i` waits for one that the kernel has. */
  ghost predicate BlockedBelow(s: State, i: nat) {
    && |s.perState| == 8 && i <= 6
    && forall st, n | 0 <= st < i && n in s.perState[st] :: n in s.contexts && Blocked(s, n)
  }

  lemma RestFromBlocked(s: State)
    requires KernelModel.Valid(s) && BlockedBelow(s, 6)
    ensures AtRest(s)
  {
    forall n | n in s.contexts
      ensures s.contexts[n].current >= INSTALLED || (s.contexts[n].current == NOT_INSTALLED && Blocked(s, n))
    {
      var st := s.contexts[n].current;
      assert n in s.perState[st];
      assert st < INSTALLED ==> Blocked(s, n);
    }
  }

  /** A deployment changes no dependency check but that of the component that asked for it. */
  lemma DemandKeeps(s: State, d: Name, parent: Name, n: Name)
    requires |s.perState| == 8 && Enabled(s, Demand(d, parent)) && n in s.contexts
    ensures var t := Apply(s, Demand(d, parent));
      && n in t.contexts
      && Ready(t, n) == Ready(s, n)
      && (Blocked(s, n) || n == parent ==> Blocked(t, n))
  {
    FirstUnmetMonotone(s, Apply(s, Demand(d, parent)), Deps(s, n));
  }

  /** Those of the components whose dependencies are met, in their order. */
  function ReadyIn(s: State, q: seq<Name>): seq<Name> {
    if q == [] then []
    else
      var n := |q| - 1;
      ReadyIn(s, q[..n]) + if q[n] in s.contexts && Ready(s, q[n]) then [q[n]] else []
  }

  lemma {:induction false} ReadyInSame(s: State, t: State, q: seq<Name>)
    requires forall n | n in q :: (n in s.contexts && Ready(s, n)) == (n in t.contexts && Ready(t, n))
    ensures ReadyIn(s, q) == ReadyIn(t, q)
    decreases |q|
  {
    hide Ready;
    if q != [] {
      ReadyInSame(s, t, q[..|q| - 1]);
    }
  }

  function Advances(q: seq<Name>): seq<Step> {
    if q == [] then [] else Advances(q[..|q| - 1]) + [Advance(q[|q| - 1])]
  }

  /** The steps of one state: deployments, and then the moves of all its components that are
      ready, in their order. */
  ghost predicate InOrder(s: State, tr: seq<Step>, from: ComponentState)
    requires |s.perState| == 8
  {
    exists k: nat, mid :: MovesFrom(s, tr, from, k, mid)
  }

  ghost predicate MovesFrom(s: State, tr: seq<Step>, from: ComponentState, k: nat, mid: State)
    requires |s.perState| == 8
  {
    && k <= |tr| && |mid.perState| == 8 && IsRun(s, tr[..k], mid)
    && Deployments(tr[..k])
    && tr[k..] == Advances(ReadyIn(mid, mid.perState[from]))
  }

  lemma NoAdvances(q: seq<Name>)
    ensures Advances(q[..0]) == []
  {
  }

  lemma InOrderFrom(s: State, deployments: seq<Step>, mid: State, resolved: seq<Name>, from: ComponentState)
    requires |s.perState| == 8 && |mid.perState| == 8 && IsRun(s, deployments, mid)
    requires Deployments(deployments) && Scanned(mid, mid.perState[from], resolved)
    ensures InOrder(s, deployments + Advances(resolved), from)
  {
    var tr := deployments + Advances(resolved);
    assert tr[..|deployments|] == deployments && tr[|deployments|..] == Advances(resolved);
    assert MovesFrom(s, tr, from, |deployments|, mid);
  }

  predicate Deployments(tr: seq<Step>) {
    forall i | 0 <= i < |tr| :: tr[i].Demand?
  }

  /** The steps of one pass: deployments, and then the steps of a single state. */
  ghost predicate OnePass(s: State, tr: seq<Step>)
    requires |s.perState| == 8
  {
    exists k: nat, mid, from: ComponentState :: PassesBy(s, tr, k, mid, from)
  }

  ghost predicate PassesBy(s: State, tr: seq<Step>, k: nat, mid: State, from: ComponentState)
    requires |s.perState| == 8
  {
    && k <= |tr| && |mid.perState| == 8 && IsRun(s, tr[..k], mid)
    && Deployments(tr[..k]) && InOrder(mid, tr[k..], from)
  }

  lemma OnePassFrom(s: State, tr: seq<Step>, u: State, steps: seq<Step>, from: ComponentState)
    requires |s.perState| == 8 && |u.perState| == 8 && IsRun(s, tr, u) && Deployments(tr) && InOrder(u, steps, from)
    ensures OnePass(s, tr + steps)
  {
    assert (tr + steps)[..|tr|] == tr && (tr + steps)[|tr|..] == steps;
    assert PassesBy(s, tr + steps, |tr|, u, from);
  }

  lemma AdvancesSnoc(q: seq<Name>, i: nat)
    requires i < |q|
    ensures Advances(q[..i + 1]) == Advances(q[..i]) + [Advance(q[i])]
  {
    assert q[..i + 1][..i] == q[..i];
  }

  /** The components `q` have been checked, and `resolved` are those whose dependencies are met. */
  ghost predicate Scanned(s: State, q: seq<Name>, resolved: seq<Name>) {
    && Distinct(resolved) && resolved == ReadyIn(s, q)
    && (forall n | n in resolved :: n in q && n in s.contexts && Ready(s, n))
    && (forall n | n in q :: n in s.contexts && (n in resolved || Blocked(s, n)))
  }

  lemma ScannedNone(s: State)
    ensures Scanned(s, [], [])
  {
  }

  lemma ScannedMore(s: State, q: seq<Name>, resolved: seq<Name>, n: Name)
    requires Scanned(s, q, resolved) && n !in q && n in s.contexts && (Ready(s, n) || Blocked(s, n))
    ensures Scanned(s, q + [n], if Ready(s, n) then resolved + [n] else resolved)
  {
    assert (q + [n])[..|q|] == q;
  }

  lemma ScannedDemand(s: State, q: seq<Name>, resolved: seq<Name>, d: Name, parent: Name)
    requires |s.perState| == 8 && Scanned(s, q, resolved) && Enabled(s, Demand(d, parent))
    ensures Scanned(Apply(s, Demand(d, parent)), q, resolved)
  {
    forall n | n in q
      ensures n in Apply(s, Demand(d, parent)).contexts
      ensures Ready(Apply(s, Demand(d, parent)), n) == Ready(s, n)
      ensures Blocked(s, n) ==> Blocked(Apply(s, Demand(d, parent)), n)
    {
      DemandKeeps(s, d, parent, n);
    }
    ReadyInSame(s, Apply(s, Demand(d, parent)), q);
  }

  /** A deployment appends to the vector of NOT_INSTALLED and leaves the others alone. */
  lemma DemandAppends(s: State, d: Name, parent: Name, from: ComponentState, i: nat)
    requires |s.perState| == 8 && Enabled(s, Demand(d, parent)) && i <= |s.perState[from]|
    ensures var t := Apply(s, Demand(d, parent));
      |t.perState| == 8 && i <= |t.perState[from]| && t.perState[from][..i] == s.perState[from][..i]
  {
    hide Lookup, Erase, Wants;
  }

  /** One turn of the scan: `n` has been checked, and at most one dependency of it deployed. */
  lemma ScanTurn(s: State, from: ComponentState, i: nat, resolved: seq<Name>, step: seq<Step>, t: State)
    requires |s.perState| == 8 && Distinct(s.perState[from]) && IsRun(s, step, t)
    requires i < |s.perState[from]| && Scanned(s, s.perState[from][..i], resolved)
    requires var n := s.perState[from][i];
      && n in s.contexts && s.contexts[n].current == from
      && (step == [] ==> Ready(s, n) || Blocked(s, n))
      && (step != [] ==> |step| == 1 && step[0].Demand? && step[0].parent == n)
    ensures |t.perState| == 8 && i < |t.perState[from]| && s.perState[from][i] in s.contexts
    ensures Scanned(t, t.perState[from][..i + 1],
              if Ready(s, s.perState[from][i]) then resolved + [s.perState[from][i]] else resolved)
    ensures from > NOT_INSTALLED ==> s == t
    ensures step == [] ==> s == t
  {
    ShortRun(s, step, t);
    var n, q := s.perState[from][i], s.perState[from][..i];
    assert n !in q by { assert forall j | 0 <= j < i :: q[j] == s.perState[from][j]; }
    assert step != [] ==> from == NOT_INSTALLED;
    hide IsRun, Apply, Scanned, Enabled, Ready, Blocked, Distinct;
    if step == [] {
      ScannedMore(s, q, resolved, n);
    } else {
      var d := step[0].name;
      assert step[0] == Demand(d, n);
      ScannedDemand(s, q, resolved, d, n);
      DemandKeeps(s, d, n, n);
      DemandAppends(s, d, n, from, i + 1);
      DemandAppends(s, d, n, from, i);
      assert !Ready(s, n) && (Ready(t, n) || Blocked(t, n)) by { DemandOfUnready(s, d, n); }
      ScannedMore(t, q, resolved, n);
    }
    assert t.perState[from][..i + 1] == q + [n];
  }

  /** The components from position `i` on are all ready to leave the state `from`. */
  ghost predicate Queued(s: State, resolved: seq<Name>, i: nat, from: ComponentState) {
    && Distinct(resolved)
    && forall j | i <= j < |resolved| ::
         resolved[j] in s.contexts && s.contexts[resolved[j]].current == from && Ready(s, resolved[j])
  }

  lemma QueuedStart(s: State, resolved: seq<Name>, from: ComponentState)
    requires KernelModel.Valid(s) && Scanned(s, s.perState[from], resolved)
    ensures Queued(s, resolved, 0, from)
  {
    forall j | 0 <= j < |resolved|
      ensures resolved[j] in s.contexts && s.contexts[resolved[j]].current == from && Ready(s, resolved[j])
    {
      assert resolved[j] in resolved;
      assert resolved[j] in s.perState[from];
    }
  }

  /** Moving one component up leaves the others ready. */
  lemma QueuedStep(s: State, resolved: seq<Name>, i: nat, from: ComponentState)
    requires |s.perState| == 8 && i < |resolved| && from < INSTALLED && Queued(s, resolved, i, from)
    ensures Enabled(s, Advance(resolved[i]))
    ensures Queued(Apply(s, Advance(resolved[i])), resolved, i + 1, from)
    ensures IsRun(s, [Advance(resolved[i])], Apply(s, Advance(resolved[i]))) && Internal([Advance(resolved[i])])
  {
    var step := Advance(resolved[i]);
    OneStep(s, step);
    StepKeeps(s, step);
    hide IsRun, Apply;
    forall j | i < j < |resolved|
      ensures Ready(Apply(s, step), resolved[j])
    {
      FirstUnmetMonotone(s, Apply(s, step), Deps(s, resolved[j]));
    }
  }

  /** A scan that finds nothing ready has found everything blocked. */
  lemma NothingReady(s: State, q: seq<Name>)
    requires Scanned(s, q, [])
    ensures forall n | n in q :: n in s.contexts && Blocked(s, n)
  {
  }

  lemma DemandOfUnready(s: State, d: Name, parent: Name)
    requires Enabled(s, Demand(d, parent))
    ensures parent in s.contexts && !Ready(s, parent)
  {
  }

  lemma OutcomeOfRequest(s: State, name: Name, tr: seq<Step>, t: State, installing: bool, o: Outcome)
    requires AtRest(s) && Enabled(s, Request(name, INSTALLED))
    requires IsRun(Deployed(s, name, INSTALLED), tr, t) && Internal(tr)
    requires Settles(t, installing, name, INSTALLED, o)
    ensures o.Done? <==> Sound(s, name)
    ensures installing <==> Unfindable(s, name)
  {
    if o.Thrown? && o.reason.NoDescription? {
      var parent :| Wants(t, parent, o.reason.name);
      MissingIsUnfindable(s, name, INSTALLED, tr, t, parent, o.reason.name);
      if Sound(s, name) {
        SoundIsFindable(s, name);
      }
    } else {
      RequestSucceedsIffSound(s, name, INSTALLED, tr, t);
      RestIsFindable(s, name, INSTALLED, tr, t);
    }
  }

  class Kernel {
    var deployers: seq<map<Name, Description>>
    var contexts: map<Name, Context>
    var perState: seq<seq<Name>>
    var installing: bool
    var stateRequirementsChanged: bool

    function View(): State
      reads this
    {
      State(deployers, contexts, perState)
    }

    ghost predicate Valid()
      reads this
    {
      KernelModel.Valid(View())
    }

    constructor (ds: seq<map<Name, Description>>)
      ensures Valid() && AtRest(View()) && !installing
      ensures deployers == ds && contexts == map[]
    {
      deployers, contexts, perState := ds, map[], [[], [], [], [], [], [], [], []];
      installing, stateRequirementsChanged := false, false;
    }

    /** The component `name` is brought to `to`, with whatever it depends on.

        From a kernel at rest, asking for INSTALLED succeeds if and only if the component
        is new, described and `Sound`.  An error leaves the kernel at rest again, except
        when a dependency turns out to have no description, which is exactly when the
        request is `Unfindable`: then the kernel goes on believing that it is installing,
        and later calls only register what they are asked for. */
    method Install(name: Name, to: ComponentState) returns (o: Outcome, ghost tr: seq<Step>)
      requires Valid()
      modifies this
      ensures Valid()
      ensures name in old(contexts) ==>
                o == Thrown(InstalledBefore(name)) && unchanged(this)
      ensures name !in old(contexts) && Lookup(old(deployers), name).None? ==>
                o == Thrown(NoDescription(name)) && unchanged(this)
      ensures name !in old(contexts) && Lookup(old(deployers), name).Some? ==>
                var s := Deployed(old(View()), name, to);
                && IsRun(s, tr, View()) && Internal(tr)
                && (old(installing) || to == NOT_INSTALLED ==> o.Done? && View() == s && installing == old(installing))
                && (old(installing) && to != NOT_INSTALLED ==> stateRequirementsChanged)
                && (!old(installing) && to != NOT_INSTALLED ==> Settles(View(), installing, name, to, o))
      ensures old(AtRest(View()) && !installing) && to == INSTALLED ==>
                var served := name !in old(contexts) && Lookup(old(deployers), name).Some?;
                && (o.Done? <==> served && Sound(old(View()), name))
                && (installing <==> served && Unfindable(old(View()), name))
      ensures name !in old(contexts) && Lookup(old(deployers), name).Some? ==>
                name in contexts && contexts[name].required == to && contexts[name].description == Lookup(old(deployers), name).value
      decreases if installing then 0 else 1, 4, 0
    {
      tr := [];
      if name in contexts {
        return Thrown(InstalledBefore(name)), tr;
      }
      for i := 0 to |deployers|
        invariant unchanged(this)
        invariant forall j | 0 <= j < i :: name !in deployers[j]
      {
        if name in deployers[i] {
          LookupAt(deployers, i, name);
        }
        var found, e := Deploy(i, name);
        if found {
          ghost var u := old(View()).(deployers := deployers);
          assert View() == Deployed(old(View()), name, NOT_INSTALLED);
          RegisteredThenRequiring(u, name, contexts[name].description, to);
          o, tr := Change(name, contexts[name].current, to);
          RunKeeps(Deployed(old(View()), name, to), tr, View());
          if old(AtRest(View()) && !installing) && to == INSTALLED {
            OutcomeOfRequest(old(View()), name, tr, View(), installing, o);
          }
          return;
        }
      }
      LookupNowhere(deployers, name);
      o := Thrown(NoDescription(name));
    }

    /** The deployer at position `i` hands its description over to the kernel. */
    method Deploy(i: nat, name: Name) returns (found: bool, o: Outcome)
      requires Valid() && i < |deployers|
      modifies this
      ensures Valid()
      ensures installing == old(installing) && stateRequirementsChanged == old(stateRequirementsChanged)
      ensures name !in old(deployers[i]) ==> !found && o.Done? && unchanged(this)
      ensures name in old(deployers[i]) ==>
                var s := old(View()).(deployers := old(deployers)[i := old(deployers[i]) - {name}]);
                if name in old(contexts) then
                  o == Thrown(InstalledBefore(name)) && View() == s
                else
                  found && o.Done? && View() == Registered(s, name, old(deployers[i])[name], NOT_INSTALLED)
      decreases if installing then 0 else 1, 3
    {
      found, o := false, Done;
      if name !in deployers[i] {
        return;
      }
      var description := deployers[i][name];
      deployers := deployers[i := deployers[i] - {name}];
      OtherDeployers(old(View()), View());
      ghost var tr;
      o, tr := InstallContext(name, description, NOT_INSTALLED);
      found := o.Done?;
    }

    /** Takes a new context in, NOT_INSTALLED, and brings it to `to`. */
    method InstallContext(name: Name, description: Description, to: ComponentState)
      returns (o: Outcome, ghost tr: seq<Step>)
      requires Valid()
      modifies this
      ensures Valid()
      ensures name in old(contexts) ==> o == Thrown(InstalledBefore(name)) && unchanged(this)
      ensures name !in old(contexts) ==>
                var s := Registered(old(View()), name, description, to);
                && IsRun(s, tr, View()) && Internal(tr)
                && (old(installing) || to == NOT_INSTALLED ==> o.Done? && View() == s && installing == old(installing))
                && (to == NOT_INSTALLED ==> stateRequirementsChanged == old(stateRequirementsChanged))
                && (old(installing) && to != NOT_INSTALLED ==> stateRequirementsChanged)
                && (!old(installing) && to != NOT_INSTALLED ==> Settles(View(), installing, name, to, o))
      decreases if installing then 0 else 1, 2
    {
      if name in contexts {
        return Thrown(InstalledBefore(name)), [];
      }
      contexts := contexts[name := Context(description, NOT_INSTALLED, NOT_INSTALLED)];
      perState := perState[NOT_INSTALLED := perState[NOT_INSTALLED] + [name]];
      assert View() == Registered(old(View()), name, description, NOT_INSTALLED);
      RegisteredValid(old(View()), name, description, NOT_INSTALLED);
      RegisteredThenRequiring(old(View()), name, description, to);
      o, tr := Change(name, contexts[name].current, to);
    }

    /** Brings a context, which is in the state `from`, to a higher state.  One that the
        kernel does not have is refused, unless there is nothing to do. */
    method Change(name: Name, from: ComponentState, to: ComponentState) returns (o: Outcome, ghost tr: seq<Step>)
      requires Valid() && (name in contexts ==> contexts[name].current == from)
      modifies this
      ensures Valid()
      ensures from == to ==> o.Done? && tr == [] && unchanged(this)
      ensures from > to ==> o == Thrown(NoUninstalling) && tr == [] && unchanged(this)
      ensures from < to && name !in old(contexts) ==> o == Thrown(UnknownContext(name)) && tr == [] && unchanged(this)
      ensures from < to && name in old(contexts) ==>
                var s := Requiring(old(View()), name, to);
                && IsRun(s, tr, View()) && Internal(tr)
                && (old(installing) ==> o.Done? && View() == s && installing && stateRequirementsChanged)
                && (!old(installing) ==> Settles(View(), installing, name, to, o))
      decreases if installing then 0 else 1, 1
    {
      tr := [];
      if from == to {
        return Done, tr;
      }
      if from > to {
        return Thrown(NoUninstalling), tr;
      }
      if name !in contexts {
        return Thrown(UnknownContext(name)), tr;
      }
      contexts := contexts[name := contexts[name].(required := to)];
      RequiringValid(old(View()), name, to);
      assert View() == Requiring(old(View()), name, to);
      if installing {
        stateRequirementsChanged := true;
        o := Done;
      } else {
        ghost var s := View();
        o, tr := Resolve();
        RunKeeps(s, tr, View());
        if o.Done? && contexts[name].current != to {
          o := Thrown(CannotChange(name, Explain(View(), name, {})));
        }
      }
    }

    /** Advances components until nothing moves any more. */
    method Resolve() returns (o: Outcome, ghost tr: seq<Step>)
      requires Valid() && !installing
      modifies this
      ensures Valid() && IsRun(old(View()), tr, View()) && Internal(tr)
      ensures o.Done? ==> !installing && AtRest(View())
      ensures o.Thrown? ==> installing && Missing(View(), o)
      decreases if installing then 0 else 1, 0
    {
      hide IsRun, Internal, AtRest, KernelModel.Valid, Measure;
      ValidStates(View());
      NoSteps(View());
      var progress := true;
      installing := true;
      tr := [];
      while progress || stateRequirementsChanged
        invariant installing && Valid() && |perState| == 8 && IsRun(old(View()), tr, View()) && Internal(tr)
        invariant !progress ==> AtRest(View())
        decreases Measure(View()), progress || stateRequirementsChanged
      {
        stateRequirementsChanged := false;
        ghost var u := View();
        ghost var steps;
        o, progress, steps := ResolvePass();
        ValidStates(View());
        RunBounded(u, steps, View());
        RunOn(old(View()), tr, u, steps, View());
        tr := tr + steps;
        if o.Thrown? {
          return;
        }
      }
      installing := false;
      o := Done;
    }

    /** One pass of `Resolve` over the states, lowest first, up to the first that makes progress. */
    method ResolvePass() returns (o: Outcome, progress: bool, ghost tr: seq<Step>)
      requires Valid() && installing && !stateRequirementsChanged
      modifies this
      ensures Valid() && installing && IsRun(old(View()), tr, View()) && Internal(tr)
      ensures o.Thrown? ==> Missing(View(), o)
      ensures o.Done? && !progress ==> AtRest(View())
      ensures progress || stateRequirementsChanged ==> tr != []
      ensures |old(perState)| == 8
      ensures o.Done? ==> if progress then OnePass(old(View()), tr) else Deployments(tr)
      decreases if installing then 0 else 1, 8
    {
      hide IsRun, Internal, AtRest, KernelModel.Valid, Missing, InOrder, OnePass;
      ValidStates(View());
      NoSteps(View());
      assert BlockedBelow(View(), 0);
      progress, tr, o := false, [], Done;
      var i := NOT_INSTALLED as int;
      while i < INSTALLED && !progress
        invariant i <= INSTALLED && installing && Valid() && |perState| == 8 && o.Done?
        invariant IsRun(old(View()), tr, View()) && Internal(tr)
        invariant progress || stateRequirementsChanged ==> tr != []
        invariant !progress ==> BlockedBelow(View(), i)
        invariant if progress then OnePass(old(View()), tr) else Deployments(tr)
      {
        ghost var u := View();
        ghost var steps;
        o, progress, steps := ResolveStates(i);
        ValidStates(View());
        if o.Done? {
          OnePassFrom(old(View()), tr, u, steps, i);
        }
        RunOn(old(View()), tr, u, steps, View());
        tr := tr + steps;
        if o.Thrown? {
          return;
        }
        i := i + 1;
      }
      if !progress {
        RestFromBlocked(View());
      }
    }

    /** Advances by one state every component in `from` whose dependencies are met. */
    method ResolveStates(from: ComponentState) returns (o: Outcome, progress: bool, ghost tr: seq<Step>)
      requires Valid() && installing && from < INSTALLED
      modifies this
      ensures Valid() && installing && IsRun(old(View()), tr, View()) && Internal(tr)
      ensures o.Thrown? ==> Missing(View(), o)
      ensures progress || stateRequirementsChanged ==> tr != [] || old(stateRequirementsChanged)
      ensures progress ==> tr != []
      ensures o.Done? && !progress ==> forall n | n in perState[from] :: n in contexts && Blocked(View(), n)
      ensures !progress && from > NOT_INSTALLED ==> View() == old(View())
      ensures |old(perState)| == 8 && (o.Done? ==> InOrder(old(View()), tr, from))
      ensures o.Done? && !progress ==> Deployments(tr)
      decreases if installing then 0 else 1, 7
    {
      hide IsRun, Internal, Missing, Blocked, Queued, Scanned, Apply, Enabled, KernelModel.Valid, InOrder, Advances, ReadyIn;
      ValidStates(View());
      var resolved;
      o, resolved, tr := Scan(from);
      progress := false;
      if o.Thrown? {
        return;
      }
      ValidStates(View());
      QueuedStart(View(), resolved, from);
      if resolved == [] {
        NothingReady(View(), perState[from]);
      }
      ghost var scanned, deployments := View(), tr;
      assert Advances(resolved[..0]) == [] by { NoAdvances(resolved); }
      for i := 0 to |resolved|
        invariant tr == deployments + Advances(resolved[..i])
        invariant Valid() && |perState| == 8 && installing && IsRun(old(View()), tr, View()) && Internal(tr)
        invariant i > 0 ==> tr != []
        invariant stateRequirementsChanged ==> tr != [] || old(stateRequirementsChanged)
        invariant Queued(View(), resolved, i, from)
        invariant i == 0 ==> View() == scanned
      {
        ghost var u := View();
        QueuedStep(u, resolved, i, from);
        MoveUp(resolved[i]);
        RunOn(old(View()), tr, u, [Advance(resolved[i])], View());
        tr := tr + [Advance(resolved[i])];
        AdvancesSnoc(resolved, i);
      }
      assert resolved[..|resolved|] == resolved;
      InOrderFrom(old(View()), deployments, scanned, resolved, from);
      progress := resolved != [];
    }

    /** Runs the install action of `name` and moves it to the vector of the state it lands in. */
    method MoveUp(name: Name)
      requires Valid() && Enabled(View(), Advance(name))
      modifies this
      ensures Valid() && View() == Apply(old(View()), Advance(name))
      ensures installing == old(installing) && stateRequirementsChanged == old(stateRequirementsChanged)
    {
      var from := contexts[name].current;
      var to := Landing(contexts[name].description, from);
      contexts := contexts[name := contexts[name].(current := to)];
      perState := perState[from := Without(perState[from], name)];
      WithoutMember(old(perState)[from], name);
      assert name !in perState[from];
      perState := perState[to := perState[to] + [name]];
      StepValid(old(View()), Advance(name));
    }

    /** Collects the components in `from` whose dependencies are met.  A dependency that
        is missing is deployed on the way, onto the end of the vector being scanned when
        `from` is NOT_INSTALLED. */
    method Scan(from: ComponentState) returns (o: Outcome, resolved: seq<Name>, ghost tr: seq<Step>)
      requires Valid() && installing && from < INSTALLED
      modifies this
      ensures Valid() && installing && IsRun(old(View()), tr, View()) && Internal(tr)
      ensures o.Thrown? ==> Missing(View(), o)
      ensures o.Done? ==> Scanned(View(), perState[from], resolved)
      ensures stateRequirementsChanged ==> tr != [] || old(stateRequirementsChanged)
      ensures from > NOT_INSTALLED ==> o.Done? && View() == old(View())
      ensures Deployments(tr)
      decreases if installing then 0 else 1, 6
    {
      hide IsRun, Internal, Missing, Measure, Grounded, Ready, Blocked, Scanned;
      NoSteps(View());
      ScannedNone(View());
      resolved, tr := [], [];
      var i := 0;
      while i < |perState[from]|
        invariant Valid() && installing && IsRun(old(View()), tr, View()) && Internal(tr)
        invariant i <= |perState[from]|
        invariant Scanned(View(), perState[from][..i], resolved)
        invariant Deployments(tr)
        invariant stateRequirementsChanged ==> tr != [] || old(stateRequirementsChanged)
        invariant from > NOT_INSTALLED ==> View() == old(View())
        decreases Measure(View()), |perState[from]| - i
      {
        var name := perState[from][i];
        MemberIsKnown(View(), from, i);
        ghost var u := View();
        ghost var step;
        var met;
        if !Ready(u, name) {
          UnreadyWaits(u, name);
        }
        o, met, step := ResolveContext(name);
        RunOn(old(View()), tr, u, step, View());
        tr := tr + step;
        if o.Thrown? {
          return;
        }
        RunBounded(u, step, View());
        ScanTurn(u, from, i, resolved, step, View());
        if met {
          resolved := resolved + [name];
        }
        i := i + 1;
      }
      assert perState[from][..i] == perState[from];
      o := Done;
    }

    /** Whether all dependencies of `name` are met.  The check stops at the first that is
        not, and deploys it if the kernel does not have it. */
    method ResolveContext(name: Name) returns (o: Outcome, met: bool, ghost tr: seq<Step>)
      requires Valid() && installing && name in contexts
      modifies this
      ensures Valid() && installing && IsRun(old(View()), tr, View()) && Internal(tr)
      ensures o.Thrown? ==> tr == [] && View() == old(View()) && Missing(View(), o)
      ensures o.Thrown? ==> old(!Ready(View(), name))
      ensures o.Done? ==> met == old(Ready(View(), name))
      ensures met ==> o.Done? && tr == []
      ensures o.Done? && !met && tr == [] ==> old(Blocked(View(), name))
      ensures tr != [] ==> |tr| == 1 && tr[0].Demand? && tr[0].parent == name
      ensures stateRequirementsChanged ==> tr != [] || old(stateRequirementsChanged)
      decreases if installing then 0 else 1, 5
    {
      hide Grounded, Sound, Unfindable;
      if !Ready(View(), name) {
        UnreadyWaits(View(), name);
      }
      tr := [];
      var dependencies := contexts[name].description.dependencies;
      for i := 0 to |dependencies|
        invariant unchanged(this)
        invariant i <= FirstUnmet(View(), dependencies)
      {
        o, met := ResolveDependency(dependencies[i]);
        if o.Thrown? {
          assert Wants(View(), name, dependencies[i]);
          return;
        }
        if !met {
          if dependencies[i] !in old(contexts) {
            tr := [Demand(dependencies[i], name)];
            OneStep(old(View()), tr[0]);
          }
          return;
        }
      }
      return Done, true, tr;
    }

    /** Whether `name` is INSTALLED; it is deployed if the kernel does not have it. */
    method ResolveDependency(name: Name) returns (o: Outcome, met: bool)
      requires Valid() && installing
      modifies this
      ensures Valid() && installing
      ensures name in old(contexts) ==> o.Done? && met == old(Installed(View(), name)) && unchanged(this)
      ensures name !in old(contexts) ==> !met
      ensures name !in old(contexts) && Lookup(old(deployers), name).None? ==>
                o == Thrown(NoDescription(name)) && unchanged(this)
      ensures name !in old(contexts) && Lookup(old(deployers), name).Some? ==>
                o.Done? && View() == Deployed(old(View()), name, INSTALLED) && stateRequirementsChanged
      decreases if installing then 0 else 1, 4, 1
    {
      if name !in contexts {
        met := false;
        ghost var tr;
        o, tr := Install(name, INSTALLED);
      } else {
        o, met := Done, contexts[name].current == INSTALLED;
      }
    }
  }
}
