/** The component kernel as a transition system.

A state holds the descriptions the deployers still offer, the contexts the kernel
knows, and one vector of names per component state.  Three kinds of step change it: an
outside request deploys a component, a dependency check deploys a missing dependency,
and a component whose dependencies are all INSTALLED advances by one state.  The module
proves what every run of such steps keeps.  A context is identified by its name, which
the kernel keeps unique. */
module KernelModel {
  import opened Wrappers

  type Name = string

  type ComponentState = s: int | 0 <= s <= 7

  const NOT_INSTALLED: ComponentState := 0
  const INSTALLED: ComponentState := 6
  const ERROR: ComponentState := 7

  /** `failsAt` is the first component state whose install action fails; a value outside
      1..6 means that no action fails. */
  datatype Description = Description(dependencies: seq<Name>, failsAt: int)

  datatype Context = Context(description: Description, current: ComponentState, required: ComponentState)

  datatype State = State(
    deployers: seq<map<Name, Description>>,
    contexts: map<Name, Context>,
    perState: seq<seq<Name>>)

  datatype Step =
    | Request(name: Name, to: ComponentState)
    | Demand(name: Name, parent: Name)
    | Advance(name: Name)

  // ----- Deployers -----

  /** The description the first deployer that offers `n` has for it. */
  function Lookup(ds: seq<map<Name, Description>>, n: Name): Option<Description> {
    if ds == [] then None
    else if n in ds[0] then Some(ds[0][n])
    else Lookup(ds[1..], n)
  }

  /** What is left once the first deployer that offers `n` has handed it over. */
  function Erase(ds: seq<map<Name, Description>>, n: Name): seq<map<Name, Description>> {
    if ds == [] then []
    else if n in ds[0] then [ds[0] - {n}] + ds[1..]
    else [ds[0]] + Erase(ds[1..], n)
  }

  function Offered(ds: seq<map<Name, Description>>): nat {
    if ds == [] then 0 else |ds[0]| + Offered(ds[1..])
  }

  lemma {:induction false} LookupErase(ds: seq<map<Name, Description>>, n: Name, m: Name)
    requires m != n
    ensures Lookup(Erase(ds, n), m) == Lookup(ds, m)
  {
    if ds != [] && n !in ds[0] {
      LookupErase(ds[1..], n, m);
      assert Erase(ds, n)[1..] == Erase(ds[1..], n);
    } else if ds != [] {
      assert Erase(ds, n)[1..] == ds[1..];
    }
  }

  lemma {:induction false} OfferedErase(ds: seq<map<Name, Description>>, n: Name)
    requires Lookup(ds, n).Some?
    ensures Offered(Erase(ds, n)) == Offered(ds) - 1
  {
    if n in ds[0] {
      assert (ds[0] - {n}).Keys == ds[0].Keys - {n};
      assert |ds[0] - {n}| == |(ds[0] - {n}).Keys| && |ds[0]| == |ds[0].Keys|;
      assert Erase(ds, n)[1..] == ds[1..];
    } else {
      OfferedErase(ds[1..], n);
      assert Erase(ds, n)[1..] == Erase(ds[1..], n);
    }
  }

  lemma {:induction false} LookupAt(ds: seq<map<Name, Description>>, i: nat, n: Name)
    requires i < |ds| && n in ds[i]
    requires forall j | 0 <= j < i :: n !in ds[j]
    ensures Lookup(ds, n) == Some(ds[i][n])
    ensures Erase(ds, n) == ds[i := ds[i] - {n}]
  {
    if i > 0 {
      LookupAt(ds[1..], i - 1, n);
    }
  }

  lemma {:induction false} LookupNowhere(ds: seq<map<Name, Description>>, n: Name)
    requires forall j | 0 <= j < |ds| :: n !in ds[j]
    ensures Lookup(ds, n).None?
  {
    if ds != [] {
      LookupNowhere(ds[1..], n);
    }
  }

  // ----- Steps -----

  predicate Installed(s: State, n: Name) {
    n in s.contexts && s.contexts[n].current == INSTALLED
  }

  /** The position of the first dependency that is not INSTALLED. */
  function FirstUnmet(s: State, deps: seq<Name>): (k: nat)
    ensures k <= |deps|
    ensures forall i | 0 <= i < k :: Installed(s, deps[i])
    ensures k < |deps| ==> !Installed(s, deps[k])
  {
    if deps == [] || !Installed(s, deps[0]) then 0 else 1 + FirstUnmet(s, deps[1..])
  }

  function Deps(s: State, n: Name): seq<Name>
    requires n in s.contexts
  {
    s.contexts[n].description.dependencies
  }

  predicate Ready(s: State, n: Name)
    requires n in s.contexts
  {
    FirstUnmet(s, Deps(s, n)) == |Deps(s, n)|
  }

  /** The first unmet dependency of `n` is a component the kernel already has. */
  predicate Blocked(s: State, n: Name)
    requires n in s.contexts
  {
    !Ready(s, n) && Deps(s, n)[FirstUnmet(s, Deps(s, n))] in s.contexts
  }

  /** The check of `parent` has come to its dependency `d`, which the kernel does not have. */
  predicate Wants(s: State, parent: Name, d: Name) {
    && parent in s.contexts
    && s.contexts[parent].current == NOT_INSTALLED
    && !Ready(s, parent)
    && Deps(s, parent)[FirstUnmet(s, Deps(s, parent))] == d
    && d !in s.contexts
  }

  predicate Enabled(s: State, step: Step) {
    match step
    case Request(n, _) => n !in s.contexts && Lookup(s.deployers, n).Some?
    case Demand(n, parent) => Wants(s, parent, n) && Lookup(s.deployers, n).Some?
    case Advance(n) => n in s.contexts && s.contexts[n].current < INSTALLED && Ready(s, n)
  }

  function Without(q: seq<Name>, n: Name): seq<Name> {
    if q == [] then [] else if q[0] == n then q[1..] else [q[0]] + Without(q[1..], n)
  }

  /** The state with a new context, NOT_INSTALLED, that is wanted in `to`. */
  function Registered(s: State, n: Name, d: Description, to: ComponentState): State
    requires |s.perState| == 8
  {
    s.(contexts := s.contexts[n := Context(d, NOT_INSTALLED, to)],
       perState := s.perState[NOT_INSTALLED := s.perState[NOT_INSTALLED] + [n]])
  }

  function Deployed(s: State, n: Name, to: ComponentState): State
    requires Lookup(s.deployers, n).Some?
    requires |s.perState| == 8
  {
    Registered(s.(deployers := Erase(s.deployers, n)), n, Lookup(s.deployers, n).value, to)
  }

  /** The state with the required state of `n` set; nothing else looks at it. */
  function Requiring(s: State, n: Name, to: ComponentState): State
    requires n in s.contexts
  {
    s.(contexts := s.contexts[n := s.contexts[n].(required := to)])
  }

  /** The state an install action leaves the component in. */
  function Landing(d: Description, from: ComponentState): ComponentState
    requires from < INSTALLED
  {
    if d.failsAt == from + 1 then ERROR else from + 1
  }

  function Advanced(s: State, n: Name): State
    requires n in s.contexts && s.contexts[n].current < INSTALLED
    requires |s.perState| == 8
  {
    var c := s.contexts[n];
    var to := Landing(c.description, c.current);
    var cut := s.perState[c.current := Without(s.perState[c.current], n)];
    s.(contexts := s.contexts[n := c.(current := to)], perState := cut[to := cut[to] + [n]])
  }

  function Apply(s: State, step: Step): (t: State)
    requires Enabled(s, step)
    requires |s.perState| == 8
    ensures |t.perState| == 8
  {
    match step
    case Request(n, to) => Deployed(s, n, to)
    case Demand(n, _) => Deployed(s, n, INSTALLED)
    case Advance(n) => Advanced(s, n)
  }

  /** `tr` leads from `s` to `t`. */
  ghost predicate IsRun(s: State, tr: seq<Step>, t: State)
    requires |s.perState| == 8
    decreases |tr|
  {
    if tr == [] then s == t
    else Enabled(s, tr[0]) && IsRun(Apply(s, tr[0]), tr[1..], t)
  }

  /** No outside request among the steps. */
  predicate Internal(tr: seq<Step>) {
    forall i | 0 <= i < |tr| :: !tr[i].Request?
  }

  lemma {:induction false} RunConcat(s: State, p: seq<Step>, t: State, q: seq<Step>, u: State)
    requires |s.perState| == 8 && |t.perState| == 8
    requires IsRun(s, p, t) && IsRun(t, q, u)
    ensures IsRun(s, p + q, u)
    decreases |p|
  {
    hide Apply, Enabled;
    if p == [] {
      assert p + q == q;
    } else {
      RunConcat(Apply(s, p[0]), p[1..], t, q, u);
      assert (p + q)[1..] == p[1..] + q;
    }
  }

  lemma NoSteps(s: State)
    requires |s.perState| == 8
    ensures IsRun(s, [], s) && Internal([])
  {
  }

  /** Steps without an outside request, followed by others. */
  lemma RunOn(s: State, p: seq<Step>, t: State, q: seq<Step>, u: State)
    requires |s.perState| == 8 && |t.perState| == 8
    requires IsRun(s, p, t) && IsRun(t, q, u) && Internal(p) && Internal(q)
    ensures IsRun(s, p + q, u) && Internal(p + q)
  {
    hide IsRun;
    RunConcat(s, p, t, q, u);
  }

  lemma ShortRun(s: State, tr: seq<Step>, t: State)
    requires |s.perState| == 8 && IsRun(s, tr, t) && |tr| <= 1
    ensures tr == [] ==> t == s
    ensures tr != [] ==> Enabled(s, tr[0]) && t == Apply(s, tr[0])
  {
    if tr != [] {
      assert tr[1..] == [];
    }
  }

  lemma OneStep(s: State, step: Step)
    requires |s.perState| == 8
    requires Enabled(s, step)
    ensures IsRun(s, [step], Apply(s, step))
  {
    assert [step][1..] == [];
  }

  // ----- Invariant -----

  predicate Distinct(q: seq<Name>) {
    forall i, j | 0 <= i < j < |q| :: q[i] != q[j]
  }

  /** Each context sits exactly once in the vector of its current state, and nowhere else. */
  ghost predicate Partitioned(s: State) {
    && |s.perState| == 8
    && (forall st | 0 <= st < 8 :: Distinct(s.perState[st]))
    && (forall st, n | 0 <= st < 8 :: n in s.perState[st] <==> n in s.contexts && s.contexts[n].current == st)
  }

  lemma MemberIsKnown(s: State, st: ComponentState, i: nat)
    requires Partitioned(s) && i < |s.perState[st]|
    ensures s.perState[st][i] in s.contexts && s.contexts[s.perState[st][i]].current == st
  {
    assert s.perState[st][i] in s.perState[st];
  }

  /** Whatever has left NOT_INSTALLED has all its dependencies INSTALLED. */
  ghost predicate Grounded(s: State) {
    forall n | n in s.contexts && s.contexts[n].current != NOT_INSTALLED :: Ready(s, n)
  }

  ghost predicate Valid(s: State) {
    Partitioned(s) && Grounded(s)
  }

  lemma ValidStates(s: State)
    requires Valid(s)
    ensures |s.perState| == 8
  {
  }

  lemma UnreadyWaits(s: State, n: Name)
    requires Valid(s) && n in s.contexts && !Ready(s, n)
    ensures s.contexts[n].current == NOT_INSTALLED
  {
  }

  lemma {:induction false} WithoutMember(q: seq<Name>, n: Name)
    requires Distinct(q) && n in q
    ensures Distinct(Without(q, n))
    ensures forall m :: m in Without(q, n) <==> m in q && m != n
    ensures |Without(q, n)| == |q| - 1
  {
    if q[0] == n {
    } else {
      WithoutMember(q[1..], n);
      var w := Without(q[1..], n);
      assert q[0] !in w;
      assert Without(q, n) == [q[0]] + w;
    }
  }

  lemma {:induction false} WithoutAbsent(q: seq<Name>, n: Name)
    requires n !in q
    ensures Without(q, n) == q && Without(q + [n], n) == q
  {
    if q == [] {
      assert q + [n] == [n];
    } else {
      WithoutAbsent(q[1..], n);
      assert (q + [n])[1..] == q[1..] + [n];
    }
  }

  /** One step puts its component at the end of the vector of its new state, and all others
      keep their order. */
  lemma StepOrder(s: State, step: Step)
    requires Partitioned(s) && Enabled(s, step)
    ensures var t := Apply(s, step);
      && step.name in t.contexts
      && (forall st: ComponentState :: Without(t.perState[st], step.name) == Without(s.perState[st], step.name))
      && var now := t.perState[t.contexts[step.name].current];
         now != [] && now[|now| - 1] == step.name
  {
    var n := step.name;
    var from := if step.Advance? then s.contexts[n].current else NOT_INSTALLED;
    if step.Advance? {
      assert n in s.perState[from];
      WithoutMember(s.perState[from], n);
      WithoutAbsent(Without(s.perState[from], n), n);
    }
    forall st: ComponentState
      ensures Without(Apply(s, step).perState[st], n) == Without(s.perState[st], n)
    {
      if !(step.Advance? && st == from) {
        assert n !in s.perState[st];
        WithoutAbsent(s.perState[st], n);
      }
    }
  }

  lemma FirstUnmetMonotone(s: State, t: State, deps: seq<Name>)
    requires forall d :: Installed(s, d) ==> Installed(t, d)
    ensures FirstUnmet(s, deps) <= FirstUnmet(t, deps)
    ensures (forall d | d in deps :: Installed(t, d) ==> Installed(s, d)) ==> FirstUnmet(s, deps) == FirstUnmet(t, deps)
  {
  }

  /** One step never takes a component out of INSTALLED, and keeps every description. */
  lemma StepKeeps(s: State, step: Step)
    requires |s.perState| == 8
    requires Enabled(s, step)
    ensures var t := Apply(s, step);
      && |t.perState| == 8
      && (forall n | n in s.contexts ::
            && n in t.contexts && t.contexts[n].description == s.contexts[n].description
            && t.contexts[n].required == s.contexts[n].required)
      && (forall n :: Installed(s, n) ==> Installed(t, n))
      && (forall n | n in s.contexts && !(step.Advance? && step.name == n) :: t.contexts[n] == s.contexts[n])
  {
  }

  lemma RegisteredValid(s: State, n: Name, d: Description, to: ComponentState)
    requires Valid(s) && n !in s.contexts
    ensures Valid(Registered(s, n, d, to))
  {
    var t := Registered(s, n, d, to);
    assert n !in s.perState[NOT_INSTALLED];
    forall st, m | 0 <= st < 8
      ensures m in t.perState[st] <==> m in t.contexts && t.contexts[m].current == st
    {
    }
    forall m | m in t.contexts && t.contexts[m].current != NOT_INSTALLED
      ensures Ready(t, m)
    {
      FirstUnmetMonotone(s, t, Deps(s, m));
    }
  }

  lemma AdvancedPartition(s: State, n: Name)
    requires Partitioned(s) && n in s.contexts && s.contexts[n].current < INSTALLED
    ensures Partitioned(Advanced(s, n))
  {
    var t := Advanced(s, n);
    var from := s.contexts[n].current;
    assert n in s.perState[from];
    WithoutMember(s.perState[from], n);
    assert forall st | 0 <= st < 8 && st != from :: n !in s.perState[st];
    forall st | 0 <= st < 8
      ensures Distinct(t.perState[st])
      ensures forall m :: m in t.perState[st] <==> m in t.contexts && t.contexts[m].current == st
    {
    }
  }

  lemma DeployedValid(s: State, n: Name, to: ComponentState)
    requires Valid(s) && n !in s.contexts && Lookup(s.deployers, n).Some?
    ensures Valid(Deployed(s, n, to))
  {
    var o := s.(deployers := Erase(s.deployers, n));
    OtherDeployers(s, o);
    RegisteredValid(o, n, Lookup(s.deployers, n).value, to);
  }

  /** The invariant does not look at the deployers. */
  lemma OtherDeployers(s: State, o: State)
    requires Valid(s) && o == s.(deployers := o.deployers)
    ensures Valid(o)
  {
    forall m | m in o.contexts && o.contexts[m].current != NOT_INSTALLED
      ensures Ready(o, m)
    {
      FirstUnmetMonotone(s, o, Deps(s, m));
    }
  }

  lemma AdvancedValid(s: State, n: Name)
    requires Valid(s) && Enabled(s, Advance(n))
    ensures Valid(Advanced(s, n))
  {
    var t := Advanced(s, n);
    AdvancedPartition(s, n);
    StepKeeps(s, Advance(n));
    forall m | m in t.contexts && t.contexts[m].current != NOT_INSTALLED
      ensures Ready(t, m)
    {
      FirstUnmetMonotone(s, t, Deps(s, m));
    }
  }

  lemma StepValid(s: State, step: Step)
    requires Valid(s) && Enabled(s, step)
    ensures Valid(Apply(s, step))
  {
    match step {
      case Request(n, to) => DeployedValid(s, n, to);
      case Demand(n, parent) => DeployedValid(s, n, INSTALLED);
      case Advance(n) => AdvancedValid(s, n);
    }
  }

  lemma RequiringValid(s: State, n: Name, to: ComponentState)
    requires Valid(s) && n in s.contexts
    ensures Valid(Requiring(s, n, to))
  {
    var t := Requiring(s, n, to);
    forall m | m in t.contexts && t.contexts[m].current != NOT_INSTALLED
      ensures Ready(t, m)
    {
      FirstUnmetMonotone(s, t, Deps(s, m));
    }
  }

  lemma RegisteredThenRequiring(s: State, n: Name, d: Description, to: ComponentState)
    requires |s.perState| == 8
    ensures Requiring(Registered(s, n, d, NOT_INSTALLED), n, to) == Registered(s, n, d, to)
  {
  }
}
