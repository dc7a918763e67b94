/** What holds of every run of the component kernel: it ends, it installs in topological
order, a dependency cycle never starts, and once it is at rest there is a genuine reason
for every component that is not INSTALLED. */
module KernelRuns {
  import opened Wrappers
  import opened KernelModel

  // ----- Invariants of runs -----

  lemma {:induction false} RunValid(s: State, tr: seq<Step>, t: State)
    requires Valid(s) && IsRun(s, tr, t)
    ensures Valid(t)
    decreases |tr|
  {
    if tr != [] {
      StepValid(s, tr[0]);
      RunValid(Apply(s, tr[0]), tr[1..], t);
    }
  }

  /** INSTALLED is never left, no context disappears or changes its description, and a
      component moves only upwards. */
  lemma {:induction false} RunKeeps(s: State, tr: seq<Step>, t: State)
    requires |s.perState| == 8 && IsRun(s, tr, t)
    ensures forall n | n in s.contexts ::
              && n in t.contexts
              && t.contexts[n].description == s.contexts[n].description
              && s.contexts[n].current <= t.contexts[n].current
              && t.contexts[n].required == s.contexts[n].required
    ensures forall n :: Installed(s, n) ==> Installed(t, n)
    decreases |tr|
  {
    if tr != [] {
      StepKeeps(s, tr[0]);
      RunKeeps(Apply(s, tr[0]), tr[1..], t);
    }
  }

  /** A component that comes in without an outside request is what the first deployer that
      offers it describes, and it is wanted INSTALLED. */
  lemma {:induction false} RunBrings(s: State, tr: seq<Step>, t: State, n: Name)
    requires |s.perState| == 8 && IsRun(s, tr, t) && Internal(tr)
    requires n !in s.contexts && n in t.contexts
    ensures Lookup(s.deployers, n) == Some(t.contexts[n].description) && t.contexts[n].required == INSTALLED
    decreases |tr|
  {
    assert tr != [] && !tr[0].Request?;
    var u := Apply(s, tr[0]);
    hide IsRun, Wants;
    if tr[0].name == n {
      RunKeeps(u, tr[1..], t);
    } else {
      RunBrings(u, tr[1..], t, n);
      if tr[0].Demand? {
        LookupErase(s.deployers, tr[0].name, n);
      }
    }
  }

  // ----- Termination -----

  /** Descriptions not yet deployed, weighted above the state steps left to deployed ones. */
  ghost function Measure(s: State): nat
    requires |s.perState| == 8
  {
    7 * Offered(s.deployers) + 6 * |s.perState[0]| + 5 * |s.perState[1]| + 4 * |s.perState[2]|
    + 3 * |s.perState[3]| + 2 * |s.perState[4]| + |s.perState[5]|
  }

  lemma StepDescends(s: State, step: Step)
    requires Valid(s) && Enabled(s, step)
    ensures |Apply(s, step).perState| == 8
    ensures Measure(Apply(s, step)) < Measure(s)
  {
    if step.Advance? {
      var from := s.contexts[step.name].current;
      assert step.name in s.perState[from];
      WithoutMember(s.perState[from], step.name);
    } else {
      OfferedErase(s.deployers, step.name);
    }
  }

  /** Every run, whatever its graph and its failures, is at most `Measure` steps long: one
      deployment and six moves for each description. */
  lemma {:induction false} RunBounded(s: State, tr: seq<Step>, t: State)
    requires Valid(s) && IsRun(s, tr, t)
    ensures |t.perState| == 8
    ensures |tr| + Measure(t) <= Measure(s)
    decreases |tr|
  {
    if tr != [] {
      StepValid(s, tr[0]);
      StepDescends(s, tr[0]);
      RunBounded(Apply(s, tr[0]), tr[1..], t);
    }
  }

  // ----- Topological order -----

  lemma {:induction false} InstalledNeverAdvances(s: State, tr: seq<Step>, t: State, i: nat, d: Name)
    requires |s.perState| == 8 && IsRun(s, tr, t)
    requires Installed(s, d) && i < |tr|
    ensures tr[i] != Advance(d)
    decreases |tr|
  {
    if i > 0 {
      StepKeeps(s, tr[0]);
      InstalledNeverAdvances(Apply(s, tr[0]), tr[1..], t, i - 1, d);
    }
  }

  /** In every run, every state change of a dependency comes before every state change of
      the component that needs it. */
  lemma {:induction false} TopologicalOrder(s: State, tr: seq<Step>, t: State, i: nat, j: nat, n: Name, d: Name)
    requires |s.perState| == 8 && IsRun(s, tr, t)
    requires i < |tr| && tr[i] == Advance(d)
    requires j < |tr| && tr[j] == Advance(n)
    requires n in t.contexts && d in Deps(t, n)
    ensures i < j
    decreases |tr|
  {
    StepKeeps(s, tr[0]);
    RunKeeps(Apply(s, tr[0]), tr[1..], t);
    if j == 0 {
      assert Ready(s, n);
      assert Installed(s, d);
      InstalledNeverAdvances(s, tr, t, i, d);
    } else if i > 0 {
      TopologicalOrder(Apply(s, tr[0]), tr[1..], t, i - 1, j - 1, n, d);
    }
  }

  /** A set of components that each depend on another of the set never starts. */
  lemma {:induction false} KnotNeverStarts(s: State, tr: seq<Step>, t: State, knot: set<Name>)
    requires |s.perState| == 8 && IsRun(s, tr, t)
    requires forall n | n in knot && n in t.contexts :: exists d :: d in knot && d in Deps(t, n)
    requires forall n | n in knot && n in s.contexts :: s.contexts[n].current == NOT_INSTALLED
    ensures forall n | n in knot && n in t.contexts :: t.contexts[n].current == NOT_INSTALLED
    decreases |tr|
  {
    if tr != [] {
      var u := Apply(s, tr[0]);
      StepKeeps(s, tr[0]);
      RunKeeps(u, tr[1..], t);
      assert !(tr[0].Advance? && tr[0].name in knot);
      KnotNeverStarts(u, tr[1..], t, knot);
    }
  }

  /** Each name is a dependency of the one before it. */
  ghost predicate Chain(s: State, p: seq<Name>) {
    && |p| > 0
    && (forall i | 0 <= i < |p| :: p[i] in s.contexts)
    && (forall i | 0 <= i < |p| - 1 :: p[i + 1] in Deps(s, p[i]))
  }

  /** The chain comes back to one of its own components. */
  ghost predicate Loops(p: seq<Name>) {
    |p| > 0 && p[|p| - 1] in p[..|p| - 1]
  }

  /** Anything on a dependency cycle, or with a chain of dependencies into one, is still
      NOT_INSTALLED after every run from an empty kernel. */
  lemma CycleNeverStarts(s: State, tr: seq<Step>, t: State, p: seq<Name>)
    requires |s.perState| == 8 && IsRun(s, tr, t)
    requires s.contexts == map[]
    requires Chain(t, p) && Loops(p)
    ensures forall n | n in p :: t.contexts[n].current == NOT_INSTALLED
  {
    var knot := set n | n in p;
    forall n | n in knot
      ensures exists d :: d in knot && d in Deps(t, n)
    {
      var i :| 0 <= i < |p| - 1 && p[i] == n by {
        if n == p[|p| - 1] { assert n in p[..|p| - 1]; }
      }
      assert p[i + 1] in knot;
    }
    KnotNeverStarts(s, tr, t, knot);
  }

  // ----- Rest -----

  /** Nothing is under way: every component is INSTALLED, has failed, or waits for a
      component that is in the kernel and is not INSTALLED. */
  ghost predicate Quiet(s: State) {
    forall n | n in s.contexts ::
      var st := s.contexts[n].current;
      st == INSTALLED || st == ERROR || (st == NOT_INSTALLED && Blocked(s, n))
  }

  ghost predicate AtRest(s: State) {
    Valid(s) && Quiet(s)
  }

  datatype Explanation =
    | NoError
    | Failed(name: Name)
    | Circular(name: Name)
    | NotFound(name: Name)
    | Unmet(name: Name, because: Explanation)

  /** Why `n` is not INSTALLED.  The walk follows first unmet dependencies and carries the
      components it has been through. */
  function Explain(s: State, n: Name, visited: set<Name>): Explanation
    requires n in s.contexts
    decreases s.contexts.Keys - visited
  {
    if s.contexts[n].current == ERROR then Failed(n)
    else if n in visited then Circular(n)
    else
      var k := FirstUnmet(s, Deps(s, n));
      if k == |Deps(s, n)| then NoError
      else
        var d := Deps(s, n)[k];
        if d !in s.contexts then Unmet(n, NotFound(d))
        else Unmet(n, Explain(s, d, visited + {n}))
  }

  function Trail(e: Explanation): seq<Name> {
    match e
    case NoError => []
    case Failed(n) => [n]
    case Circular(n) => [n]
    case NotFound(n) => [n]
    case Unmet(n, because) => [n] + Trail(because)
  }

  function Cause(e: Explanation): Explanation {
    if e.Unmet? then Cause(e.because) else e
  }

  /** Each component is the first unmet dependency of the one before it. */
  ghost predicate FirstUnmets(s: State, p: seq<Name>) {
    forall i | 0 <= i < |p| - 1 ::
      && p[i] in s.contexts && !Ready(s, p[i])
      && p[i + 1] == Deps(s, p[i])[FirstUnmet(s, Deps(s, p[i]))]
  }

  /** The trail of `e` starts at `n` and continues `path` along dependencies that are not
      INSTALLED, down to a failed component or back to a component met before. */
  ghost predicate Genuine(s: State, path: seq<Name>, n: Name, e: Explanation) {
    && Trail(e) != [] && Trail(e)[0] == n
    && Chain(s, path + Trail(e))
    && FirstUnmets(s, Trail(e))
    && (forall m | m in Trail(e) :: !Installed(s, m))
    && var last := Trail(e)[|Trail(e)| - 1];
       || (Cause(e) == Failed(last) && last in s.contexts && s.contexts[last].current == ERROR)
       || (Cause(e) == Circular(last) && Loops(path + Trail(e)))
  }

  /** At rest, the explanation of a component that is not INSTALLED is a chain of
      dependencies, each the first unmet one of the one before it, down to a failed component or back to a
      component of the chain itself. */
  lemma ExplainIsGenuine(s: State, n: Name)
    requires Quiet(s) && n in s.contexts && !Installed(s, n)
    ensures Genuine(s, [], n, Explain(s, n, {}))
  {
    var none: seq<Name> := [];
    assert (set m | m in none) == {};
    ExplainFrom(s, n, none);
  }

  lemma {:induction false} ExplainFrom(s: State, n: Name, path: seq<Name>)
    requires Quiet(s) && n in s.contexts && !Installed(s, n)
    requires Chain(s, path + [n])
    ensures Genuine(s, path, n, Explain(s, n, set m | m in path))
    decreases s.contexts.Keys - set m | m in path
  {
    var visited := set m | m in path;
    if s.contexts[n].current == ERROR {
    } else if n in visited {
      assert (path + [n])[..|path|] == path;
    } else {
      assert Blocked(s, n);
      var d := Deps(s, n)[FirstUnmet(s, Deps(s, n))];
      assert (set m | m in path + [n]) == visited + {n};
      ChainSnoc(s, path + [n], d);
      ExplainFrom(s, d, path + [n]);
      GenuineCons(s, path, n, d, Explain(s, d, visited + {n}));
    }
  }

  lemma ChainSnoc(s: State, p: seq<Name>, d: Name)
    requires Chain(s, p) && d in s.contexts && d in Deps(s, p[|p| - 1])
    ensures Chain(s, p + [d])
  {
  }

  lemma GenuineCons(s: State, path: seq<Name>, n: Name, d: Name, e: Explanation)
    requires n in s.contexts && !Installed(s, n) && !Ready(s, n) && d == Deps(s, n)[FirstUnmet(s, Deps(s, n))]
    requires Genuine(s, path + [n], d, e)
    ensures Genuine(s, path, n, Unmet(n, e))
  {
    FirstUnmetsCons(s, n, Trail(e));
    hide Ready, Deps, FirstUnmet, FirstUnmets, Chain, Loops, Installed;
    assert path + ([n] + Trail(e)) == path + [n] + Trail(e);
  }

  lemma FirstUnmetsCons(s: State, n: Name, p: seq<Name>)
    requires p != [] && FirstUnmets(s, p)
    requires n in s.contexts && !Ready(s, n) && p[0] == Deps(s, n)[FirstUnmet(s, Deps(s, n))]
    ensures FirstUnmets(s, [n] + p)
  {
    hide Ready, Deps, FirstUnmet;
    assert forall i | 0 < i <= |p| :: ([n] + p)[i] == p[i - 1];
  }
}
