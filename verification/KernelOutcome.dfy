/** When a request to install a component succeeds.

`Sound` says it over the dependency graph: along every chain of dependencies from the
component there is no repetition, and every component met is INSTALLED already or is
described, not yet deployed and free of failing actions.  The module proves that this is
exactly when the kernel comes to rest with the component INSTALLED, and that it comes
across a dependency without a description exactly when the request is `Unfindable`. */
module KernelOutcome {
  import opened Wrappers
  import opened KernelModel
  import opened KernelRuns

  // ----- The dependency graph of a state -----

  predicate NeverFails(d: Description) {
    !(1 <= d.failsAt <= 6)
  }

  /** `n` can be deployed, and none of its install actions fails. */
  predicate Deployable(s: State, n: Name) {
    && n !in s.contexts
    && Lookup(s.deployers, n).Some?
    && NeverFails(Lookup(s.deployers, n).value)
  }

  function Needs(s: State, n: Name): seq<Name> {
    if n in s.contexts then Deps(s, n)
    else if Lookup(s.deployers, n).Some? then Lookup(s.deployers, n).value.dependencies
    else []
  }

  /** A chain of dependencies that goes through components that are not yet INSTALLED. */
  ghost predicate Path(s: State, p: seq<Name>) {
    && |p| > 0
    && forall i | 0 <= i < |p| - 1 :: !Installed(s, p[i]) && p[i + 1] in Needs(s, p[i])
  }

  ghost predicate Reaches(s: State, n: Name, m: Name) {
    exists p :: Path(s, p) && p[0] == n && p[|p| - 1] == m
  }

  ghost predicate Sound(s: State, n: Name) {
    forall p | Path(s, p) && p[0] == n :: Distinct(p) && forall m | m in p :: Installed(s, m) || Deployable(s, m)
  }

  // ----- The same by height -----

  /** `n` can be installed by at most `k` layers of deployments. */
  ghost predicate InstallableIn(s: State, k: nat, n: Name) {
    || Installed(s, n)
    || (k > 0 && Deployable(s, n) && forall d | d in Needs(s, n) :: InstallableIn(s, k - 1, d))
  }

  ghost predicate Installable(s: State, n: Name) {
    exists k: nat :: InstallableIn(s, k, n)
  }

  lemma {:induction false} InstallableMore(s: State, k: nat, l: nat, n: Name)
    requires k <= l && InstallableIn(s, k, n)
    ensures InstallableIn(s, l, n)
    decreases k
  {
    if !Installed(s, n) {
      forall d | d in Needs(s, n)
        ensures InstallableIn(s, l - 1, d)
      {
        InstallableMore(s, k - 1, l - 1, d);
      }
    }
  }

  lemma {:induction false} CommonHeight(s: State, ds: seq<Name>) returns (k: nat)
    requires forall d | d in ds :: Installable(s, d)
    ensures forall d | d in ds :: InstallableIn(s, k, d)
  {
    if ds == [] {
      k := 0;
    } else {
      assert Installable(s, ds[0]);
      var k0: nat :| InstallableIn(s, k0, ds[0]);
      var k1 := CommonHeight(s, ds[1..]);
      k := k0 + k1;
      forall d | d in ds
        ensures InstallableIn(s, k, d)
      {
        InstallableMore(s, if d == ds[0] then k0 else k1, k, d);
      }
    }
  }

  lemma InstallableByNeeds(s: State, n: Name)
    requires Deployable(s, n) && forall d | d in Needs(s, n) :: Installable(s, d)
    ensures Installable(s, n)
  {
    var k := CommonHeight(s, Needs(s, n));
    assert InstallableIn(s, k + 1, n);
  }

  // Every chain below an installable component is good.

  lemma {:induction false} HeightOfPath(s: State, k: nat, p: seq<Name>, i: nat)
    requires Path(s, p) && InstallableIn(s, k, p[0]) && i < |p|
    ensures i <= k && InstallableIn(s, k - i, p[i])
    decreases i
  {
    if i > 0 {
      assert p[1] in Needs(s, p[0]);
      assert Path(s, p[1..]);
      HeightOfPath(s, k - 1, p[1..], i - 1);
    }
  }

  lemma {:induction false} NoCycle(s: State, k: nat, p: seq<Name>)
    requires Path(s, p) && |p| > 1 && InstallableIn(s, k, p[0])
    ensures p[0] != p[|p| - 1]
    decreases k
  {
    assert !Installed(s, p[0]) && p[1] in Needs(s, p[0]);
    if p[0] == p[|p| - 1] {
      var q := p[1..] + [p[1]];
      assert Path(s, q);
      NoCycle(s, k - 1, q);
    }
  }

  lemma InstallableIsSound(s: State, n: Name)
    requires Installable(s, n)
    ensures Sound(s, n)
  {
    var k: nat :| InstallableIn(s, k, n);
    forall p | Path(s, p) && p[0] == n
      ensures Distinct(p) && forall m | m in p :: Installed(s, m) || Deployable(s, m)
    {
      forall i | 0 <= i < |p|
        ensures i <= k && InstallableIn(s, k - i, p[i])
      {
        HeightOfPath(s, k, p, i);
      }
      forall i, j | 0 <= i < j < |p|
        ensures p[i] != p[j]
      {
        HeightOfPath(s, k, p, i);
        NoCycle(s, k - i, p[i..j + 1]);
      }
    }
  }

  // A sound component is installable: otherwise a chain would outgrow the descriptions.

  function Described(ds: seq<map<Name, Description>>): set<Name> {
    if ds == [] then {} else ds[0].Keys + Described(ds[1..])
  }

  lemma {:induction false} DescribedIffLookup(ds: seq<map<Name, Description>>, n: Name)
    ensures n in Described(ds) <==> Lookup(ds, n).Some?
  {
    if ds != [] {
      DescribedIffLookup(ds[1..], n);
    }
  }

  lemma {:induction false} SoundFrom(s: State, p: seq<Name>)
    requires Path(s, p) && Sound(s, p[0])
    ensures Installable(s, p[|p| - 1])
    decreases Described(s.deployers) - set m | m in p
  {
    var n := p[|p| - 1];
    assert n in p;
    if Installed(s, n) {
      assert InstallableIn(s, 0, n);
    } else {
      forall d | d in Needs(s, n)
        ensures Installable(s, d)
      {
        var q := p + [d];
        assert Path(s, q) && q[0] == p[0] && d in q;
        assert Distinct(q);
        if Installed(s, d) {
          assert InstallableIn(s, 0, d);
        } else {
          DescribedIffLookup(s.deployers, d);
          assert d !in p by { assert q[|p|] == d; assert forall i | 0 <= i < |p| :: q[i] == p[i] && q[i] != q[|p|]; }
          assert (set m | m in q) == (set m | m in p) + {d};
          SoundFrom(s, q);
          assert q[|q| - 1] == d;
        }
      }
      InstallableByNeeds(s, n);
    }
  }

  lemma SoundIffInstallable(s: State, n: Name)
    ensures Sound(s, n) <==> Installable(s, n)
  {
    if Sound(s, n) {
      SoundFrom(s, [n]);
    }
    if Installable(s, n) {
      InstallableIsSound(s, n);
    }
  }

  // ----- What a request looks for -----

  /** The check of `a`, which the kernel does not have yet, gets as far as its dependency
      `b`: whatever it lists before `b` can be installed. */
  ghost predicate Asks(s: State, a: Name, b: Name) {
    && a !in s.contexts
    && exists k | 0 <= k < |Needs(s, a)| ::
         Needs(s, a)[k] == b && forall j | 0 <= j < k :: Installable(s, Needs(s, a)[j])
  }

  ghost predicate Search(s: State, p: seq<Name>) {
    |p| > 0 && forall i | 0 <= i < |p| - 1 :: Asks(s, p[i], p[i + 1])
  }

  ghost predicate Sought(s: State, root: Name, n: Name) {
    exists p :: Search(s, p) && p[0] == root && p[|p| - 1] == n
  }

  /** The request looks for a component that the kernel does not have and nobody describes. */
  ghost predicate Unfindable(s: State, root: Name) {
    exists n :: Sought(s, root, n) && n !in s.contexts && Lookup(s.deployers, n).None?
  }

  /** One component with one dependency that nobody describes. */
  lemma UnfindableExample(a: Name, b: Name)
    requires a != b
    ensures var s := State([map[a := Description([b], 0)]], map[], [[], [], [], [], [], [], [], []]);
      AtRest(s) && Unfindable(s, a)
  {
    var s := State([map[a := Description([b], 0)]], map[], [[], [], [], [], [], [], [], []]);
    assert Needs(s, a)[0] == b;
    assert Asks(s, a, b);
    var p := [a, b];
    assert Search(s, p) && p[0] == a && p[|p| - 1] == b;
    assert Sought(s, a, b) && Lookup(s.deployers, b).None?;
  }

  lemma SoughtReaches(s: State, root: Name, n: Name)
    requires Sought(s, root, n)
    ensures Reaches(s, root, n)
  {
    var p :| Search(s, p) && p[0] == root && p[|p| - 1] == n;
    forall i | 0 <= i < |p| - 1
      ensures !Installed(s, p[i]) && p[i + 1] in Needs(s, p[i])
    {
      assert Asks(s, p[i], p[i + 1]);
    }
    assert Path(s, p);
  }

  // ----- Runs that serve one request -----

  /** What holds of `s` when the kernel was at rest in `o` and has since served one request
      for `root`: nothing it had then has moved, whatever is new came from the deployers
      and was sought for `root`, and whatever is INSTALLED could be. */
  ghost predicate Serves(o: State, root: Name, s: State) {
    && (forall n | n in o.contexts :: n in s.contexts && s.contexts[n] == o.contexts[n])
    && (forall n | n !in s.contexts :: Lookup(s.deployers, n) == Lookup(o.deployers, n))
    && (forall n | n in s.contexts && n !in o.contexts ::
          && Lookup(o.deployers, n) == Some(s.contexts[n].description)
          && Sought(o, root, n)
          && Truthful(s.contexts[n]))
    && (forall n | Installed(s, n) :: Installable(o, n))
  }

  /** A context has failed only if one of its actions fails, and passed only actions that do not. */
  predicate Truthful(c: Context) {
    if c.current == ERROR then !NeverFails(c.description)
    else !(1 <= c.description.failsAt <= c.current)
  }

  lemma ServesStart(o: State, root: Name, to: ComponentState)
    requires AtRest(o) && Enabled(o, Request(root, to))
    ensures Serves(o, root, Apply(o, Request(root, to)))
  {
    var s := Apply(o, Request(root, to));
    assert Search(o, [root]) && [root][0] == root;
    forall n | n !in s.contexts
      ensures Lookup(s.deployers, n) == Lookup(o.deployers, n)
    {
      LookupErase(o.deployers, root, n);
    }
    forall n | Installed(s, n)
      ensures Installable(o, n)
    {
      assert InstallableIn(o, 0, n);
    }
  }

  /** What waited at rest still waits, for the same component. */
  lemma StillBlocked(o: State, root: Name, s: State, n: Name)
    requires AtRest(o) && Serves(o, root, s)
    requires n in o.contexts && o.contexts[n].current == NOT_INSTALLED
    ensures Blocked(s, n)
  {
    forall d | Installed(o, d)
      ensures Installed(s, d)
    {
    }
    FirstUnmetMonotone(o, s, Deps(o, n));
    assert Blocked(o, n);
  }

  lemma ServesDemand(o: State, root: Name, s: State, n: Name, parent: Name)
    requires AtRest(o) && Valid(s) && Serves(o, root, s)
    requires Enabled(s, Demand(n, parent))
    ensures Serves(o, root, Apply(s, Demand(n, parent)))
  {
    var t := Apply(s, Demand(n, parent));
    forall m | m !in t.contexts
      ensures Lookup(t.deployers, m) == Lookup(o.deployers, m)
    {
      LookupErase(s.deployers, n, m);
    }
    DemandIsSought(o, root, s, n, parent);
    forall m | Installed(t, m)
      ensures Installable(o, m)
    {
      assert Installed(s, m);
    }
  }

  /** A component that a dependency check has come to is one the request looks for. */
  lemma DemandIsSought(o: State, root: Name, s: State, n: Name, parent: Name)
    requires AtRest(o) && Serves(o, root, s)
    requires Wants(s, parent, n)
    ensures Sought(o, root, n) && n !in o.contexts
  {
    if parent in o.contexts {
      StillBlocked(o, root, s, parent);
      assert false;
    }
    assert Sought(o, root, parent);
    var p :| Search(o, p) && p[0] == root && p[|p| - 1] == parent;
    WantsAsks(o, root, s, n, parent);
    var q := p + [n];
    assert Search(o, q) && q[0] == root && q[|q| - 1] == n;
  }

  lemma WantsAsks(o: State, root: Name, s: State, n: Name, parent: Name)
    requires Serves(o, root, s) && Wants(s, parent, n) && parent !in o.contexts
    ensures Asks(o, parent, n)
  {
    var k := FirstUnmet(s, Deps(s, parent));
    assert Needs(o, parent) == Deps(s, parent);
    forall j | 0 <= j < k
      ensures Installable(o, Needs(o, parent)[j])
    {
      assert Installed(s, Deps(s, parent)[j]);
    }
    assert Needs(o, parent)[k] == n;
  }

  lemma ServesAdvance(o: State, root: Name, s: State, n: Name)
    requires AtRest(o) && Valid(s) && Serves(o, root, s)
    requires Enabled(s, Advance(n))
    ensures Serves(o, root, Apply(s, Advance(n)))
  {
    var t := Apply(s, Advance(n));
    if n in o.contexts {
      StillBlocked(o, root, s, n);
      assert false;
    }
    assert Truthful(t.contexts[n]);
    forall m | Installed(t, m)
      ensures Installable(o, m)
    {
      if m == n {
        NewIsInstallable(o, root, s, n, t.contexts[n]);
      } else {
        assert Installed(s, m);
      }
    }
  }

  lemma NewIsInstallable(o: State, root: Name, s: State, n: Name, c: Context)
    requires Serves(o, root, s) && n in s.contexts && n !in o.contexts && Ready(s, n)
    requires c.description == s.contexts[n].description && Truthful(c) && c.current == INSTALLED
    ensures Installable(o, n)
  {
    forall d | d in Needs(o, n)
      ensures Installable(o, d)
    {
      assert Installed(s, d);
    }
    InstallableByNeeds(o, n);
  }

  lemma {:induction false} ServesRun(o: State, root: Name, s: State, tr: seq<Step>, t: State)
    requires AtRest(o) && Valid(s) && Serves(o, root, s)
    requires IsRun(s, tr, t) && Internal(tr)
    ensures Valid(t) && Serves(o, root, t)
    decreases |tr|
  {
    if tr != [] {
      StepValid(s, tr[0]);
      match tr[0] {
        case Demand(n, parent) => ServesDemand(o, root, s, n, parent);
        case Advance(n) => ServesAdvance(o, root, s, n);
        case Request(_, _) =>
      }
      ServesRun(o, root, Apply(s, tr[0]), tr[1..], t);
    }
  }

  lemma {:induction false} InstallableIsInstalled(o: State, root: Name, s: State, k: nat, n: Name)
    requires Serves(o, root, s) && AtRest(s)
    requires InstallableIn(o, k, n) && n in s.contexts
    ensures Installed(s, n)
    decreases k
  {
    if Installed(o, n) {
    } else if s.contexts[n].current == NOT_INSTALLED {
      NewHasNotFailed(o, root, s, n);
      var d := Deps(s, n)[FirstUnmet(s, Deps(s, n))];
      assert Blocked(s, n) && d in Needs(o, n);
      InstallableIsInstalled(o, root, s, k - 1, d);
      assert false;
    } else {
      NewHasNotFailed(o, root, s, n);
    }
  }

  lemma NewHasNotFailed(o: State, root: Name, s: State, n: Name)
    requires Serves(o, root, s) && n in s.contexts && Deployable(o, n)
    ensures s.contexts[n].current != ERROR && Needs(o, n) == Deps(s, n)
  {
  }

  /** The request for `root` ends with `root` INSTALLED if and only if `root` was sound. */
  lemma RequestSucceedsIffSound(o: State, root: Name, to: ComponentState, tr: seq<Step>, t: State)
    requires AtRest(o) && Enabled(o, Request(root, to))
    requires IsRun(Apply(o, Request(root, to)), tr, t) && Internal(tr) && AtRest(t)
    ensures Installed(t, root) <==> Sound(o, root)
  {
    var s := Apply(o, Request(root, to));
    StepValid(o, Request(root, to));
    ServesStart(o, root, to);
    ServesRun(o, root, s, tr, t);
    RunKeeps(s, tr, t);
    SoundIffInstallable(o, root);
    if Installable(o, root) {
      var k: nat :| InstallableIn(o, k, root);
      InstallableIsInstalled(o, root, t, k, root);
    }
  }

  /** A sound request can find everything it looks for. */
  lemma SoundIsFindable(s: State, root: Name)
    requires Sound(s, root)
    ensures !Unfindable(s, root)
  {
    forall n | Sought(s, root, n) && n !in s.contexts
      ensures Lookup(s.deployers, n).Some?
    {
      SoughtReaches(s, root, n);
      var p :| Path(s, p) && p[0] == root && p[|p| - 1] == n;
      assert n in p;
    }
  }

  /** A dependency check that comes to a component nobody describes shows the request to be
      unfindable. */
  lemma MissingIsUnfindable(o: State, root: Name, to: ComponentState, tr: seq<Step>, t: State, parent: Name, d: Name)
    requires AtRest(o) && Enabled(o, Request(root, to))
    requires IsRun(Apply(o, Request(root, to)), tr, t) && Internal(tr)
    requires Wants(t, parent, d) && Lookup(t.deployers, d).None?
    ensures Unfindable(o, root)
  {
    StepValid(o, Request(root, to));
    ServesStart(o, root, to);
    ServesRun(o, root, Apply(o, Request(root, to)), tr, t);
    DemandIsSought(o, root, t, d, parent);
  }

  /** When the kernel has come to rest, it has every component it looked for. */
  lemma {:induction false} SearchEndsKnown(o: State, root: Name, t: State, p: seq<Name>)
    requires Serves(o, root, t) && AtRest(t) && root in t.contexts
    requires Search(o, p) && p[0] == root
    ensures p[|p| - 1] in t.contexts
    decreases |p|
  {
    hide Serves, AtRest, Asks;
    if |p| > 1 {
      var q, a, b := p[..|p| - 1], p[|p| - 2], p[|p| - 1];
      assert Asks(o, a, b);
      SearchEndsKnown(o, root, t, q);
      AskedIsKnown(o, root, t, a, b);
    }
  }

  lemma AskedIsKnown(o: State, root: Name, t: State, a: Name, b: Name)
    requires Serves(o, root, t) && AtRest(t) && a in t.contexts && Asks(o, a, b)
    ensures b in t.contexts
  {
    RestReadyOrBlocked(o, root, t, a);
    hide Serves, AtRest, InstallableIn, Ready;
    var k :| 0 <= k < |Needs(o, a)| && Needs(o, a)[k] == b && forall j | 0 <= j < k :: Installable(o, Needs(o, a)[j]);
    var f := FirstUnmet(t, Deps(t, a));
    if f < k {
      assert Installable(o, Needs(o, a)[f]);
      var h: nat :| InstallableIn(o, h, Needs(o, a)[f]);
      InstallableIsInstalled(o, root, t, h, Needs(o, a)[f]);
      assert false;
    } else if f > k {
      assert Installed(t, Deps(t, a)[k]);
    }
  }

  /** At rest the check of a new component has come to its end, or to a component that the
      kernel has. */
  lemma RestReadyOrBlocked(o: State, root: Name, t: State, a: Name)
    requires Serves(o, root, t) && AtRest(t) && a in t.contexts && a !in o.contexts
    ensures Needs(o, a) == Deps(t, a)
    ensures var f := FirstUnmet(t, Deps(t, a)); f == |Deps(t, a)| || Deps(t, a)[f] in t.contexts
  {
    if t.contexts[a].current == NOT_INSTALLED {
      assert Blocked(t, a);
    } else {
      assert Ready(t, a);
    }
  }

  lemma SoughtIsDescribed(o: State, root: Name, t: State, n: Name)
    requires Serves(o, root, t) && AtRest(t) && root in t.contexts
    requires Sought(o, root, n) && n !in o.contexts
    ensures Lookup(o.deployers, n).Some?
  {
    if Lookup(o.deployers, n).None? {
      var p :| Search(o, p) && p[0] == root && p[|p| - 1] == n;
      assert !Installable(o, n);
      SearchEndsKnown(o, root, t, p);
      assert false;
    }
  }

  /** A request after which the kernel is at rest found everything it looked for. */
  lemma RestIsFindable(o: State, root: Name, to: ComponentState, tr: seq<Step>, t: State)
    requires AtRest(o) && Enabled(o, Request(root, to))
    requires IsRun(Apply(o, Request(root, to)), tr, t) && Internal(tr) && AtRest(t)
    ensures !Unfindable(o, root)
  {
    var s := Apply(o, Request(root, to));
    StepValid(o, Request(root, to));
    ServesStart(o, root, to);
    ServesRun(o, root, s, tr, t);
    RunKeeps(s, tr, t);
    forall n | Sought(o, root, n) && n !in o.contexts
      ensures Lookup(o.deployers, n).Some?
    {
      SoughtIsDescribed(o, root, t, n);
    }
  }

  /** Serving a request deploys only what `root` needs and moves nothing the kernel had. */
  lemma RequestStaysInClosure(o: State, root: Name, to: ComponentState, tr: seq<Step>, t: State)
    requires AtRest(o) && Enabled(o, Request(root, to))
    requires IsRun(Apply(o, Request(root, to)), tr, t) && Internal(tr)
    ensures forall n | n in t.contexts && n !in o.contexts :: Reaches(o, root, n)
    ensures forall n | n in o.contexts :: n in t.contexts && t.contexts[n] == o.contexts[n]
  {
    StepValid(o, Request(root, to));
    ServesStart(o, root, to);
    ServesRun(o, root, Apply(o, Request(root, to)), tr, t);
    forall n | n in t.contexts && n !in o.contexts
      ensures Reaches(o, root, n)
    {
      SoughtReaches(o, root, n);
    }
  }

  /** A request that ends at rest has deployed exactly what it looks for, and has installed
      exactly those components of the kernel that could be. */
  lemma RequestDoesExactly(o: State, root: Name, to: ComponentState, tr: seq<Step>, t: State, n: Name)
    requires AtRest(o) && Enabled(o, Request(root, to))
    requires IsRun(Apply(o, Request(root, to)), tr, t) && Internal(tr) && AtRest(t)
    ensures n !in o.contexts ==> (n in t.contexts <==> Sought(o, root, n))
    ensures n in t.contexts ==> (Installed(t, n) <==> Installable(o, n))
  {
    var s := Apply(o, Request(root, to));
    StepValid(o, Request(root, to));
    ServesStart(o, root, to);
    ServesRun(o, root, s, tr, t);
    RunKeeps(s, tr, t);
    ServesExactly(o, root, t, n);
  }

  lemma ServesExactly(o: State, root: Name, t: State, n: Name)
    requires Serves(o, root, t) && AtRest(t) && root in t.contexts
    ensures n !in o.contexts ==> (n in t.contexts <==> Sought(o, root, n))
    ensures n in t.contexts ==> (Installed(t, n) <==> Installable(o, n))
  {
    if Sought(o, root, n) {
      var p :| Search(o, p) && p[0] == root && p[|p| - 1] == n;
      SearchEndsKnown(o, root, t, p);
    }
    if n in t.contexts && Installable(o, n) {
      var k: nat :| InstallableIn(o, k, n);
      InstallableIsInstalled(o, root, t, k, n);
    }
  }

  /** Whatever an INSTALLED component needs, directly or not, is INSTALLED. */
  lemma {:induction false} InstalledClosure(s: State, p: seq<Name>)
    requires Valid(s) && |p| > 0 && Installed(s, p[0])
    requires forall i | 0 <= i < |p| - 1 :: p[i + 1] in Needs(s, p[i])
    ensures forall m | m in p :: Installed(s, m)
    decreases |p|
  {
    if |p| > 1 {
      assert Ready(s, p[0]);
      assert p[1] in Needs(s, p[0]);
      InstalledClosure(s, p[1..]);
      assert p == [p[0]] + p[1..];
    }
  }
}
