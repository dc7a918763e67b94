/** The node that each rule is on.  The source keeps a pointer from the rule to its node; here
a node is named by the way to it from the root. */
module RuleNodes {
  import opened Wrappers
  import opened PacketExpr
  import opened CnodeTree

  datatype Branch = Keyed(key: Value) | Any

  type Location = seq<Branch>

  function NodeAt(n: Cnode, at: Location): Option<Cnode>
    decreases |at|
  {
    if at == [] then Some(n)
    else if n.Leaf? then None
    else
      match at[0]
      case Any => if n.any.None? then None else NodeAt(n.any.value, at[1..])
      case Keyed(k) =>
        var c := Pick(n.children, k);
        if c == [] then None else NodeAt(c[0], at[1..])
  }

  /** The node at the location has the rule on its list. */
  predicate Points(n: Cnode, at: Location, r: Rule) {
    NodeAt(n, at).Some? && r in NodeAt(n, at).value.rules
  }

  lemma {:induction false} PointsBag(n: Cnode, at: Location, r: Rule)
    requires Points(n, at, r)
    ensures r in Bag(n)
    decreases |at|
  {
    if at != [] {
      match at[0]
      case Any => PointsBag(n.any.value, at[1..], r);
      case Keyed(k) =>
        PointsBag(Pick(n.children, k)[0], at[1..], r);
        PickBag(n.children, k, r);
    }
  }

  lemma {:induction false} PickBag(ns: seq<Cnode>, k: Value, r: Rule)
    requires Pick(ns, k) != [] && r in Bag(Pick(ns, k)[0])
    ensures r in BagOfAll(ns)
    decreases |ns|
  {
    if ns[0].value != k {
      PickBag(ns[1..], k, r);
    }
  }

  // ----- Adding -----

  /** The node that `AddRule` puts the rule on. */
  function Landing(n: Cnode, r: Rule, path: set<Field>): Location
    decreases n, 1
  {
    if n.Leaf? || !Splittable(r.expr, path) then []
    else if n.field in r.expr then
      var k := Key(n.field, r.expr[n.field]);
      [Keyed(k)] + LandingIn(n.children, k, r, path + {n.field})
    else if n.any.None? then [Any]
    else [Any] + Landing(n.any.value, r, path + {n.field})
  }

  function LandingIn(ns: seq<Cnode>, k: Value, r: Rule, path: set<Field>): Location
    decreases ns, 0
  {
    if ns == [] then []
    else if ns[0].value == k then Landing(ns[0], r, path)
    else LandingIn(ns[1..], k, r, path)
  }

  lemma {:induction false} InsertHas(q: seq<Rule>, r: Rule, x: Rule)
    ensures x in Insert(q, r) <==> x == r || x in q
  {
    InsertBag(q, r);
    assert x in multiset(Insert(q, r)) <==> x in multiset(q) + multiset{r};
  }

  /** The new rule is on the node it is said to be on. */
  lemma {:induction false} AddPoints(n: Cnode, r: Rule, path: set<Field>)
    ensures Points(AddRule(n, r, path), Landing(n, r, path), r)
    decreases n, 1
  {
    var m, at := AddRule(n, r, path), Landing(n, r, path);
    if n.Leaf? || !Splittable(r.expr, path) {
      InsertHas(n.rules, r, r);
    } else if n.field in r.expr {
      var k := Key(n.field, r.expr[n.field]);
      assert at[1..] == LandingIn(n.children, k, r, path + {n.field});
      if forall c | c in n.children :: c.value != k {
        LandingNowhere(n.children, k, r, path + {n.field});
        assert Pick(m.children, k)[0] == Leaf(k, [r]);
      } else {
        AddInPoints(n.children, k, r, path + {n.field});
      }
    } else if n.any.Some? {
      assert at[1..] == Landing(n.any.value, r, path + {n.field});
      AddPoints(n.any.value, r, path + {n.field});
    } else {
      assert at[1..] == [];
    }
  }

  lemma {:induction false} LandingNowhere(ns: seq<Cnode>, k: Value, r: Rule, path: set<Field>)
    requires forall c | c in ns :: c.value != k
    ensures LandingIn(ns, k, r, path) == []
    decreases |ns|
  {
    if ns != [] {
      LandingNowhere(ns[1..], k, r, path);
    }
  }

  lemma {:induction false} AddInPoints(ns: seq<Cnode>, k: Value, r: Rule, path: set<Field>)
    requires exists c :: c in ns && c.value == k
    ensures var c := Pick(AddToChild(ns, k, r, path), k); c != [] && Points(c[0], LandingIn(ns, k, r, path), r)
    decreases ns, 0
  {
    var ms := AddToChild(ns, k, r, path);
    if ns[0].value == k {
      AddPoints(ns[0], r, path);
      assert ms[0] == AddRule(ns[0], r, path);
    } else {
      AddInPoints(ns[1..], k, r, path);
      assert ms[1..] == AddToChild(ns[1..], k, r, path);
    }
  }

  /** Every other rule stays on its node. */
  lemma {:induction false} AddKeeps(n: Cnode, r: Rule, path: set<Field>, at: Location, x: Rule)
    requires Points(n, at, x)
    ensures Points(AddRule(n, r, path), at, x)
    decreases |at|
  {
    var m := AddRule(n, r, path);
    if n.Leaf? || !Splittable(r.expr, path) {
      InsertHas(n.rules, r, x);
    } else if at != [] {
      match at[0]
      case Any =>
        if n.field !in r.expr {
          AddKeeps(n.any.value, r, path + {n.field}, at[1..], x);
        }
      case Keyed(j) =>
        if n.field in r.expr {
          var k := Key(n.field, r.expr[n.field]);
          if forall c | c in n.children :: c.value != k {
            PickMember(n.children, j);
            PickValue(n.children, j);
            assert Pick(n.children, j)[0] in n.children;
            assert m.children[1..] == n.children;
          } else {
            PickAdd(n.children, k, r, path + {n.field}, j);
            if j == k {
              AddKeeps(Pick(n.children, j)[0], r, path + {n.field}, at[1..], x);
            }
          }
        }
    }
  }

  lemma {:induction false} PickValue(ns: seq<Cnode>, k: Value)
    ensures Pick(ns, k) != [] ==> Pick(ns, k)[0].value == k
    decreases |ns|
  {
    if ns != [] && ns[0].value != k {
      PickValue(ns[1..], k);
    }
  }

  lemma {:induction false} PickAdd(ns: seq<Cnode>, k: Value, r: Rule, path: set<Field>, j: Value)
    requires Pick(ns, j) != []
    ensures var c := Pick(AddToChild(ns, k, r, path), j);
      c == [if j == k then AddRule(Pick(ns, j)[0], r, path) else Pick(ns, j)[0]]
    decreases |ns|
  {
    var ms := AddToChild(ns, k, r, path);
    if ns[0].value == k {
      assert ms[0] == AddRule(ns[0], r, path) && ms[1..] == ns[1..];
    } else {
      assert ms[0] == ns[0] && ms[1..] == AddToChild(ns[1..], k, r, path);
    }
    if ns[0].value != j {
      if ns[0].value != k {
        PickAdd(ns[1..], k, r, path, j);
      }
      PickOne(ns[1..], j);
    }
  }

  lemma {:induction false} PickOne(ns: seq<Cnode>, k: Value)
    requires Pick(ns, k) != []
    ensures Pick(ns, k) == [Pick(ns, k)[0]]
    decreases |ns|
  {
    if ns[0].value != k {
      PickOne(ns[1..], k);
    }
  }

  // ----- Removing -----

  lemma {:induction false} DropHas(q: seq<Rule>, id: RuleId, x: Rule)
    ensures x in Drop(q, id) <==> x in q && x.id != id
  {
    DropBag(q, id, x);
    assert x in Drop(q, id) <==> x in multiset(Drop(q, id));
    assert x in q <==> x in multiset(q);
  }

  lemma {:induction false} PickRemove(ns: seq<Cnode>, id: RuleId, k: Value)
    requires Pick(ns, k) != []
    ensures Pick(RemoveAll(ns, id), k) == [Remove(Pick(ns, k)[0], id)]
    decreases |ns|
  {
    assert RemoveAll(ns, id)[1..] == RemoveAll(ns[1..], id);
    if ns[0].value != k {
      PickRemove(ns[1..], id, k);
    }
  }

  /** Removing a rule leaves every other on its node. */
  lemma {:induction false} RemoveKeeps(n: Cnode, id: RuleId, at: Location, x: Rule)
    requires Points(n, at, x) && x.id != id
    ensures Points(Remove(n, id), at, x)
    decreases |at|
  {
    if at == [] {
      DropHas(n.rules, id, x);
    } else {
      match at[0]
      case Any => RemoveKeeps(n.any.value, id, at[1..], x);
      case Keyed(k) =>
        PickRemove(n.children, id, k);
        RemoveKeeps(Pick(n.children, k)[0], id, at[1..], x);
    }
  }

  /** The list without the first rule with the identifier. */
  function Cut(q: seq<Rule>, id: RuleId): seq<Rule> {
    if q == [] then [] else if q[0].id == id then q[1..] else [q[0]] + Cut(q[1..], id)
  }

  /** Removal through the node pointer: only the list of that node is looked at. */
  function RemoveAt(n: Cnode, at: Location, id: RuleId): Cnode
    requires NodeAt(n, at).Some?
    decreases |at|, 0
  {
    if at == [] then n.(rules := Cut(n.rules, id))
    else
      match at[0]
      case Any => n.(any := Some(RemoveAt(n.any.value, at[1..], id)))
      case Keyed(k) => n.(children := RemoveIn(n.children, k, at[1..], id))
  }

  function RemoveIn(ns: seq<Cnode>, k: Value, at: Location, id: RuleId): seq<Cnode>
    requires Pick(ns, k) != [] && NodeAt(Pick(ns, k)[0], at).Some?
    decreases |at|, |ns| + 1
  {
    if ns[0].value == k then [RemoveAt(ns[0], at, id)] + ns[1..]
    else [ns[0]] + RemoveIn(ns[1..], k, at, id)
  }

  ghost predicate Absent(bag: multiset<Rule>, id: RuleId) {
    forall x | x in bag :: x.id != id
  }

  lemma {:induction false} RemoveNothing(n: Cnode, id: RuleId)
    requires Absent(Bag(n), id)
    ensures Remove(n, id) == n
    decreases n
  {
    forall x | x in n.rules
      ensures x.id != id
    {
      assert x in Bag(n);
    }
    DropNothing(n.rules, id);
    if n.Split? {
      assert forall x | x in BagOfAll(n.children) :: x in Bag(n);
      RemoveAllNothing(n.children, id);
      if n.any.Some? {
        assert forall x | x in Bag(n.any.value) :: x in Bag(n);
        RemoveNothing(n.any.value, id);
      }
    }
  }

  lemma {:induction false} RemoveAllNothing(ns: seq<Cnode>, id: RuleId)
    requires Absent(BagOfAll(ns), id)
    ensures RemoveAll(ns, id) == ns
    decreases ns
  {
    if ns != [] {
      assert forall x | x in Bag(ns[0]) :: x in BagOfAll(ns);
      assert forall x | x in BagOfAll(ns[1..]) :: x in BagOfAll(ns);
      RemoveNothing(ns[0], id);
      RemoveAllNothing(ns[1..], id);
    }
  }

  /** `r` is the one rule with its identifier, once. */
  ghost predicate Sole(bag: multiset<Rule>, r: Rule) {
    bag[r] == 1 && forall x | x in bag && x.id == r.id :: x == r
  }

  /** If one part has the sole rule, the other has no rule with its identifier. */
  lemma SoleSplit(bag: multiset<Rule>, a: multiset<Rule>, b: multiset<Rule>, r: Rule)
    requires bag == a + b && Sole(bag, r) && r in a
    ensures Sole(a, r) && Absent(b, r.id)
  {
    forall x | x in b
      ensures x.id != r.id
    {
      assert x in bag;
      assert bag[x] == a[x] + b[x];
    }
    assert forall x | x in a :: x in bag;
  }

  lemma {:induction false} CutIsDrop(q: seq<Rule>, r: Rule)
    requires Sole(multiset(q), r)
    ensures Cut(q, r.id) == Drop(q, r.id)
  {
    var head, tail := q[0], q[1..];
    assert q == [head] + tail;
    assert multiset(q) == multiset{head} + multiset(tail);
    if head.id == r.id {
      assert head in multiset(q);
      SoleSplit(multiset(q), multiset{head}, multiset(tail), r);
      assert forall x | x in tail :: x in multiset(tail);
      DropNothing(tail, r.id);
    } else {
      assert r in multiset(tail);
      SoleSplit(multiset(q), multiset(tail), multiset{head}, r);
      CutIsDrop(tail, r);
    }
  }

  /** Removing a rule through its node pointer is removing it from the tree. */
  lemma {:induction false} RemoveAtIsRemove(n: Cnode, at: Location, r: Rule)
    requires Points(n, at, r) && Sole(Bag(n), r)
    ensures RemoveAt(n, at, r.id) == Remove(n, r.id)
    decreases |at|, 0
  {
    if at == [] {
      SoleOnList(n, r);
      CutIsDrop(n.rules, r);
    } else {
      match at[0]
      case Any =>
        PointsBag(n.any.value, at[1..], r);
        SoleInAny(n, r);
        RemoveAtIsRemove(n.any.value, at[1..], r);
      case Keyed(k) =>
        PointsBag(Pick(n.children, k)[0], at[1..], r);
        PickBag(n.children, k, r);
        SoleInChildren(n, r);
        RemoveInIsRemove(n.children, k, at[1..], r);
    }
  }

  // Where the sole rule is, and what that leaves alone.

  lemma SoleOnList(n: Cnode, r: Rule)
    requires Sole(Bag(n), r) && r in n.rules
    ensures Sole(multiset(n.rules), r)
    ensures Remove(n, r.id) == n.(rules := Drop(n.rules, r.id))
  {
    var below := if n.Leaf? then multiset{} else BagOfAll(n.children);
    var rest := if n.Leaf? then multiset{} else BagOfAny(n.any);
    assert Bag(n) == multiset(n.rules) + (below + rest);
    SoleSplit(Bag(n), multiset(n.rules), below + rest, r);
    if n.Split? {
      AbsentParts(below, rest, r.id);
      RemoveAllNothing(n.children, r.id);
      if n.any.Some? {
        RemoveNothing(n.any.value, r.id);
      }
    }
  }

  lemma SoleInAny(n: Cnode, r: Rule)
    requires n.Split? && n.any.Some? && Sole(Bag(n), r) && r in Bag(n.any.value)
    ensures Sole(Bag(n.any.value), r)
    ensures Remove(n, r.id) == n.(any := Some(Remove(n.any.value, r.id)))
  {
    var lists, below, rest := multiset(n.rules), BagOfAll(n.children), Bag(n.any.value);
    assert Bag(n) == rest + (lists + below);
    SoleSplit(Bag(n), rest, lists + below, r);
    AbsentParts(lists, below, r.id);
    AbsentList(n.rules, r.id);
    RemoveAllNothing(n.children, r.id);
  }

  lemma SoleInChildren(n: Cnode, r: Rule)
    requires n.Split? && Sole(Bag(n), r) && r in BagOfAll(n.children)
    ensures Sole(BagOfAll(n.children), r)
    ensures Remove(n, r.id) == n.(children := RemoveAll(n.children, r.id))
  {
    var lists, below, rest := multiset(n.rules), BagOfAll(n.children), BagOfAny(n.any);
    assert Bag(n) == below + (lists + rest);
    SoleSplit(Bag(n), below, lists + rest, r);
    AbsentParts(lists, rest, r.id);
    AbsentList(n.rules, r.id);
    if n.any.Some? {
      RemoveNothing(n.any.value, r.id);
    }
  }

  lemma AbsentParts(a: multiset<Rule>, b: multiset<Rule>, id: RuleId)
    requires Absent(a + b, id)
    ensures Absent(a, id) && Absent(b, id)
  {
    assert forall x | x in a :: x in a + b;
    assert forall x | x in b :: x in a + b;
  }

  lemma AbsentList(q: seq<Rule>, id: RuleId)
    requires Absent(multiset(q), id)
    ensures Drop(q, id) == q
  {
    assert forall x | x in q :: x in multiset(q);
    DropNothing(q, id);
  }

  lemma {:induction false} RemoveInIsRemove(ns: seq<Cnode>, k: Value, at: Location, r: Rule)
    requires Pick(ns, k) != [] && Points(Pick(ns, k)[0], at, r) && Sole(BagOfAll(ns), r)
    ensures RemoveIn(ns, k, at, r.id) == RemoveAll(ns, r.id)
    decreases |at|, |ns| + 1
  {
    if ns[0].value == k {
      PointsBag(ns[0], at, r);
      SoleSplit(BagOfAll(ns), Bag(ns[0]), BagOfAll(ns[1..]), r);
      RemoveAtIsRemove(ns[0], at, r);
      RemoveAllNothing(ns[1..], r.id);
    } else {
      PointsBag(Pick(ns, k)[0], at, r);
      PickBag(ns[1..], k, r);
      assert BagOfAll(ns) == BagOfAll(ns[1..]) + Bag(ns[0]);
      SoleSplit(BagOfAll(ns), BagOfAll(ns[1..]), Bag(ns[0]), r);
      RemoveNothing(ns[0], r.id);
      RemoveInIsRemove(ns[1..], k, at, r);
    }
  }

  // ----- Setting the pointers of a tree -----

  function SetList(q: seq<Rule>, at: Location, m: map<RuleId, Location>): map<RuleId, Location> {
    if q == [] then m else SetList(q[1..], at, m[q[0].id := at])
  }

  function SetNodePointers(n: Cnode, at: Location, m: map<RuleId, Location>): map<RuleId, Location>
    decreases n
  {
    var own := SetList(n.rules, at, m);
    if n.Leaf? then own
    else
      var below := SetAll(n.children, at, own);
      if n.any.None? then below else SetNodePointers(n.any.value, at + [Any], below)
  }

  function SetAll(ns: seq<Cnode>, at: Location, m: map<RuleId, Location>): map<RuleId, Location>
    decreases ns
  {
    if ns == [] then m else SetAll(ns[1..], at, SetNodePointers(ns[0], at + [Keyed(ns[0].value)], m))
  }

  /** Every pointer leads to a node with a rule of that identifier. */
  ghost predicate Leads(root: Cnode, m: map<RuleId, Location>) {
    forall id | id in m :: exists r: Rule :: r.id == id && Points(root, m[id], r)
  }

  lemma {:induction false} NodeAtConcat(n: Cnode, at: Location, b: Branch)
    requires NodeAt(n, at).Some?
    ensures NodeAt(n, at + [b]) == NodeAt(NodeAt(n, at).value, [b])
    decreases |at|
  {
    if at == [] {
      assert [] + [b] == [b];
    } else {
      assert (at + [b])[1..] == at[1..] + [b];
      match at[0]
      case Any => NodeAtConcat(n.any.value, at[1..], b);
      case Keyed(k) => NodeAtConcat(Pick(n.children, k)[0], at[1..], b);
    }
  }

  lemma {:induction false} SetListLeads(root: Cnode, n: Cnode, q: seq<Rule>, at: Location, m: map<RuleId, Location>)
    requires NodeAt(root, at) == Some(n) && Leads(root, m) && forall x | x in q :: x in n.rules
    ensures var t := SetList(q, at, m);
      Leads(root, t) && m.Keys <= t.Keys && forall x | x in q :: x.id in t
    decreases |q|
  {
    if q != [] {
      assert Points(root, at, q[0]);
      SetListLeads(root, n, q[1..], at, m[q[0].id := at]);
    }
  }

  /** A walk over a tree points every rule of it to its node. */
  lemma {:induction false} SetNodePointersLead(root: Cnode, n: Cnode, at: Location, m: map<RuleId, Location>)
    requires NodeAt(root, at) == Some(n) && Placed(n) && Leads(root, m)
    ensures var t := SetNodePointers(n, at, m);
      Leads(root, t) && m.Keys <= t.Keys && forall r | r in Bag(n) :: r.id in t
    decreases n
  {
    hide Leads;
    SetListLeads(root, n, n.rules, at, m);
    var own := SetList(n.rules, at, m);
    if n.Split? {
      ChildrenPicked(n.field, n.children);
      SetAllLead(root, n, n.children, at, own);
      if n.any.Some? {
        NodeAtConcat(root, at, Any);
        assert [Any][1..] == [];
        SetNodePointersLead(root, n.any.value, at + [Any], SetAll(n.children, at, own));
      }
    }
  }

  /** With different keys, each child is the one picked by its key. */
  ghost predicate Picked(all: seq<Cnode>, ns: seq<Cnode>) {
    forall c | c in ns :: Pick(all, c.value) == [c]
  }

  lemma {:induction false} ChildrenPicked(f: Field, ns: seq<Cnode>)
    requires PlacedAll(f, ns)
    ensures Picked(ns, ns) && forall c | c in ns :: Placed(c)
    decreases |ns|
  {
    if ns != [] {
      ChildrenPicked(f, ns[1..]);
      forall c | c in ns
        ensures Pick(ns, c.value) == [c]
      {
        if c != ns[0] {
          assert c in ns[1..];
        }
      }
    }
  }

  lemma {:induction false} SetAllLead(root: Cnode, n: Cnode, ns: seq<Cnode>, at: Location, m: map<RuleId, Location>)
    requires n.Split? && NodeAt(root, at) == Some(n) && Leads(root, m)
    requires Picked(n.children, ns) && forall c | c in ns :: Placed(c)
    ensures var t := SetAll(ns, at, m);
      Leads(root, t) && m.Keys <= t.Keys && forall r | r in BagOfAll(ns) :: r.id in t
    decreases ns
  {
    hide Leads;
    if ns != [] {
      var b := Keyed(ns[0].value);
      NodeAtConcat(root, at, b);
      assert [b][1..] == [];
      SetNodePointersLead(root, ns[0], at + [b], m);
      SetAllLead(root, n, ns[1..], at, SetNodePointers(ns[0], at + [b], m));
    }
  }
}
