/** Packet expressions and what they match. */
module PacketExpr {

  // The fields a rule can constrain; the classifier tree splits on all but the last.
  const AP_SRC := 0
  const AP_DST := 1
  const DL_VLAN := 2
  const DL_VLAN_PCP := 3
  const DL_TYPE := 4
  const DL_SRC := 5
  const DL_DST := 6
  const NW_SRC := 7
  const NW_DST := 8
  const NW_PROTO := 9
  const TP_SRC := 10
  const TP_DST := 11
  const GROUP_SRC := 12
  const GROUP_DST := 13

  type Field = nat
  type Value = nat

  /** The fields that are not wildcarded, with their values. */
  type Expr = map<Field, Value>

  /** What rules are matched against: the header fields of a packet, or another expression. */
  datatype Data = Flow(headers: map<Field, Value>) | Query(expr: Expr)

  /** The fields that a packet does not have. */
  const UNREADABLE: set<Field> := {AP_DST, GROUP_SRC, GROUP_DST}

  predicate Supported(e: Expr) {
    forall f | f in e :: f !in UNREADABLE
  }

  /** The header fields of a packet. */
  const HEADERS: set<Field> := {AP_SRC, DL_VLAN, DL_VLAN_PCP, DL_TYPE, DL_SRC, DL_DST, NW_SRC, NW_DST, NW_PROTO, TP_SRC, TP_DST}

  /** What the source asserts before it tests a rule: against a packet, the rule constrains
      only fields that a packet has. */
  predicate Testable(e: Expr, d: Data) {
    d.Flow? ==> Supported(e)
  }

  /** What the test computes.  A packet matches if it agrees with every constrained field that
      it has; a query matches a rule that constrains at least the same fields in the same
      way. */
  predicate Matches(e: Expr, d: Data) {
    match d
    case Flow(h) => forall f | f in e && f !in UNREADABLE :: f in h && e[f] == h[f]
    case Query(q) => forall f | f in q :: f in e && e[f] == q[f]
  }

  /** A rule on the fields there are can be tested against a packet if and only if it
      constrains header fields alone. */
  lemma TestableIffHeaders(e: Expr, h: map<Field, Value>)
    requires forall f | f in e :: f <= GROUP_DST
    ensures Testable(e, Flow(h)) <==> e.Keys <= HEADERS
  {
    assert forall f | f in e :: f in HEADERS <==> f !in UNREADABLE;
  }

  /** An expression selects exactly the rules all of whose packets it covers. */
  lemma QueryCovers(e: Expr, q: Expr)
    ensures Matches(e, Query(q)) <==> forall h :: Agrees(e, h) ==> Agrees(q, h)
  {
    assert Agrees(e, e);
  }

  /** The packet agrees with every field that the rule constrains. */
  predicate Agrees(e: Expr, h: map<Field, Value>) {
    forall f | f in e :: f in h && e[f] == h[f]
  }

  /** The test of packets is agreement if and only if the rule passes the assertion. */
  lemma SupportedIffExact(e: Expr)
    ensures Supported(e) <==> forall h :: Matches(e, Flow(h)) <==> Agrees(e, h)
  {
    if !Supported(e) {
      var h := e - UNREADABLE;
      assert Matches(e, Flow(h)) && !Agrees(e, h);
    }
  }

  /** A rule on the destination access point alone fails the assertion, and without it would
      match every packet. */
  lemma UnsupportedExample(v: Value, h: map<Field, Value>)
    ensures var e: Expr := map[AP_DST := v]; !Testable(e, Flow(h)) && Matches(e, Flow(h))
  {
    var e: Expr := map[AP_DST := v];
    assert AP_DST in e && AP_DST in UNREADABLE;
  }

  /** The 32 bits of a value that the tree splits on: hardware addresses are cut to their
      last four octets. */
  function Key(f: Field, v: Value): Value {
    if f == DL_SRC || f == DL_DST then v % 0x1_0000_0000 else v
  }

  /** What the source asserts before it looks a field up: a packet is not asked for its
      destination access point. */
  predicate Askable(d: Data, f: Field) {
    d.Flow? ==> f != AP_DST
  }

  /** The keys `d` has for a field; none if it says nothing about it. */
  function Keys(d: Data, f: Field): seq<Value> {
    if d.Flow? && f in UNREADABLE then []
    else
      var fields := if d.Flow? then d.headers else d.expr;
      if f in fields then [Key(f, fields[f])] else []
  }

  /** Which packets fail the assertion on looking a field up, and which fields tell nothing. */
  lemma KeysOfPacket(h: map<Field, Value>, f: Field)
    ensures Askable(Flow(h), f) <==> f != AP_DST
    ensures f in h && f in HEADERS ==> Keys(Flow(h), f) == [Key(f, h[f])]
    ensures f == GROUP_SRC || f == GROUP_DST ==> Keys(Flow(h), f) == []
  {
    assert f in HEADERS ==> f !in UNREADABLE;
  }

  lemma KeysOfQuery(q: Expr, f: Field)
    ensures Askable(Query(q), f)
    ensures Keys(Query(q), f) == if f in q then [Key(f, q[f])] else []
  {
  }

  /** Two values have the same key exactly if they are the same, or, as hardware addresses,
      have the same last four octets. */
  lemma SameKey(f: Field, v: Value, w: Value)
    ensures Key(f, v) == Key(f, w) <==>
              v == w || ((f == DL_SRC || f == DL_DST) && (v - w) % 0x1_0000_0000 == 0)
  {
  }

  predicate Splittable(e: Expr, path: set<Field>) {
    exists f | f in e :: f !in path
  }

  /** What the tree relies on: a match is found under the keys of the data. */
  lemma MatchHasKey(e: Expr, d: Data, f: Field)
    requires Matches(e, d) && f in e
    ensures Keys(d, f) == [] || Key(f, e[f]) in Keys(d, f)
  {
  }
}

/** The classifier tree. */
module CnodeTree {
  import opened Wrappers
  import opened PacketExpr

  type RuleId = nat

  datatype Rule = Rule(id: RuleId, priority: nat, expr: Expr, action: int)

  /** A node holds a list of rules and, once split on a field, one child for each key that
      some rule has in that field, with that key as its value, and one for the rules that do
      not constrain the field. */
  datatype Cnode =
    | Leaf(value: Value, rules: seq<Rule>)
    | Split(value: Value, rules: seq<Rule>, field: Field, children: seq<Cnode>, any: Option<Cnode>)

  // ----- Contents -----

  ghost function Bag(n: Cnode): multiset<Rule> {
    multiset(n.rules) + if n.Leaf? then multiset{} else BagOfAll(n.children) + BagOfAny(n.any)
  }

  ghost function BagOfAny(n: Option<Cnode>): multiset<Rule> {
    if n.None? then multiset{} else Bag(n.value)
  }

  ghost function BagOfAll(ns: seq<Cnode>): multiset<Rule> {
    if ns == [] then multiset{} else Bag(ns[0]) + BagOfAll(ns[1..])
  }

  // ----- Invariant -----

  predicate Sorted(q: seq<Rule>) {
    forall i, j | 0 <= i < j < |q| :: q[i].priority <= q[j].priority
  }

  predicate HasKey(r: Rule, f: Field, k: Value) {
    f in r.expr && Key(f, r.expr[f]) == k
  }

  /** Lists are sorted, and below a split every rule is where its expression belongs. */
  ghost predicate Placed(n: Cnode)
    decreases n
  {
    && Sorted(n.rules)
    && (n.Split? ==>
          && PlacedAll(n.field, n.children)
          && (n.any.Some? ==> Placed(n.any.value) && forall r | r in Bag(n.any.value) :: n.field !in r.expr))
  }

  ghost predicate PlacedAll(f: Field, ns: seq<Cnode>)
    decreases ns
  {
    ns == [] ||
    (&& Placed(ns[0])
     && (forall r | r in Bag(ns[0]) :: HasKey(r, f, ns[0].value))
     && (forall n | n in ns[1..] :: n.value != ns[0].value)
     && PlacedAll(f, ns[1..]))
  }

  // ----- Adding -----

  /** Before the first rule whose priority is not lower. */
  function Insert(q: seq<Rule>, r: Rule): seq<Rule> {
    if q == [] || r.priority <= q[0].priority then [r] + q else [q[0]] + Insert(q[1..], r)
  }

  function AddRule(n: Cnode, r: Rule, path: set<Field>): (m: Cnode)
    ensures m.value == n.value && m.Split? == n.Split? && (n.Split? ==> m.field == n.field)
    decreases n, 1
  {
    if n.Leaf? || !Splittable(r.expr, path) then n.(rules := Insert(n.rules, r))
    else if n.field in r.expr then
      var k := Key(n.field, r.expr[n.field]);
      if forall c | c in n.children :: c.value != k then n.(children := [Leaf(k, [r])] + n.children)
      else n.(children := AddToChild(n.children, k, r, path + {n.field}))
    else if n.any.None? then n.(any := Some(Leaf(0, [r])))
    else n.(any := Some(AddRule(n.any.value, r, path + {n.field})))
  }

  /** Into the first child with the key. */
  function AddToChild(ns: seq<Cnode>, k: Value, r: Rule, path: set<Field>): seq<Cnode>
    decreases ns, 0
  {
    if ns == [] then []
    else if ns[0].value == k then [AddRule(ns[0], r, path)] + ns[1..]
    else [ns[0]] + AddToChild(ns[1..], k, r, path)
  }

  lemma {:induction false} InsertBag(q: seq<Rule>, r: Rule)
    ensures multiset(Insert(q, r)) == multiset(q) + multiset{r}
  {
    if q == [] || r.priority <= q[0].priority {
    } else {
      InsertBag(q[1..], r);
      assert q == [q[0]] + q[1..];
    }
  }

  lemma {:induction false} InsertSorted(q: seq<Rule>, r: Rule)
    requires Sorted(q)
    ensures Sorted(Insert(q, r))
  {
    if q == [] || r.priority <= q[0].priority {
    } else {
      InsertSorted(q[1..], r);
      InsertBag(q[1..], r);
      var w := Insert(q[1..], r);
      forall i | 0 <= i < |w|
        ensures q[0].priority <= w[i].priority
      {
        assert w[i] in multiset(w);
        assert w[i] in multiset(q[1..]) || w[i] == r;
      }
    }
  }

  /** The rule goes behind exactly the rules of lower priority number. */
  lemma {:induction false} InsertAt(q: seq<Rule>, r: Rule) returns (k: nat)
    requires Sorted(q)
    ensures k <= |q| && Insert(q, r) == q[..k] + [r] + q[k..]
    ensures forall i | 0 <= i < |q| :: q[i].priority < r.priority <==> i < k
  {
    if q == [] || r.priority <= q[0].priority {
      k := 0;
    } else {
      k := InsertAt(q[1..], r);
      k := k + 1;
      assert q == [q[0]] + q[1..];
    }
  }

  lemma NewChildBag(ns: seq<Cnode>, k: Value, r: Rule)
    ensures Bag(Leaf(k, [r])) == multiset{r}
    ensures BagOfAll([Leaf(k, [r])] + ns) == BagOfAll(ns) + multiset{r}
  {
    assert ([Leaf(k, [r])] + ns)[1..] == ns;
  }

  lemma {:induction false} AddRuleBag(n: Cnode, r: Rule, path: set<Field>)
    ensures Bag(AddRule(n, r, path)) == Bag(n) + multiset{r}
    decreases n, 1
  {
    var m := AddRule(n, r, path);
    if n.Leaf? || !Splittable(r.expr, path) {
      InsertBag(n.rules, r);
    } else if n.field in r.expr {
      var k := Key(n.field, r.expr[n.field]);
      if forall c | c in n.children :: c.value != k {
        NewChildBag(n.children, k, r);
      } else {
        AddToChildBag(n.children, k, r, path + {n.field});
      }
    } else if n.any.None? {
      NewChildBag([], 0, r);
    } else {
      AddRuleBag(n.any.value, r, path + {n.field});
    }
  }

  lemma {:induction false} AddToChildBag(ns: seq<Cnode>, k: Value, r: Rule, path: set<Field>)
    requires exists n :: n in ns && n.value == k
    ensures BagOfAll(AddToChild(ns, k, r, path)) == BagOfAll(ns) + multiset{r}
    decreases ns, 0
  {
    var ms := AddToChild(ns, k, r, path);
    if ns[0].value == k {
      AddRuleBag(ns[0], r, path);
      assert ms[1..] == ns[1..];
    } else {
      AddToChildBag(ns[1..], k, r, path);
      assert ms[1..] == AddToChild(ns[1..], k, r, path);
    }
  }

  lemma {:induction false} AddRulePlaced(n: Cnode, r: Rule, path: set<Field>)
    requires Placed(n)
    ensures Placed(AddRule(n, r, path))
    decreases n, 1
  {
    var m := AddRule(n, r, path);
    if n.Leaf? || !Splittable(r.expr, path) {
      InsertSorted(n.rules, r);
    } else if n.field in r.expr {
      var k := Key(n.field, r.expr[n.field]);
      if forall c | c in n.children :: c.value != k {
        assert m.children[0] == Leaf(k, [r]) && m.children[1..] == n.children;
        assert Bag(m.children[0]) == multiset{r};
      } else {
        AddToChildPlaced(n.field, n.children, k, r, path + {n.field});
      }
    } else if n.any.None? {
      assert Bag(m.any.value) == multiset{r};
    } else {
      AddRulePlaced(n.any.value, r, path + {n.field});
      AddRuleBag(n.any.value, r, path + {n.field});
    }
  }

  lemma {:induction false} AddToChildValues(ns: seq<Cnode>, k: Value, r: Rule, path: set<Field>, v: Value)
    requires forall n | n in ns :: n.value != v
    ensures forall n | n in AddToChild(ns, k, r, path) :: n.value != v
    decreases ns
  {
    if ns != [] {
      AddRuleBag(ns[0], r, path);
      AddToChildValues(ns[1..], k, r, path, v);
    }
  }

  lemma {:induction false} AddToChildPlaced(f: Field, ns: seq<Cnode>, k: Value, r: Rule, path: set<Field>)
    requires PlacedAll(f, ns) && HasKey(r, f, k)
    ensures PlacedAll(f, AddToChild(ns, k, r, path))
    decreases ns, 0
  {
    if ns != [] {
      var ms := AddToChild(ns, k, r, path);
      if ns[0].value == k {
        AddRulePlaced(ns[0], r, path);
        AddRuleBag(ns[0], r, path);
        assert ms[1..] == ns[1..];
      } else {
        AddToChildPlaced(f, ns[1..], k, r, path);
        AddToChildValues(ns[1..], k, r, path, ns[0].value);
        assert ms[1..] == AddToChild(ns[1..], k, r, path);
      }
    }
  }

  // ----- Removing -----

  function Drop(q: seq<Rule>, id: RuleId): seq<Rule> {
    if q == [] then [] else if q[0].id == id then Drop(q[1..], id) else [q[0]] + Drop(q[1..], id)
  }

  function Remove(n: Cnode, id: RuleId): Cnode {
    if n.Leaf? then n.(rules := Drop(n.rules, id))
    else n.(rules := Drop(n.rules, id), children := RemoveAll(n.children, id),
            any := if n.any.None? then None else Some(Remove(n.any.value, id)))
  }

  function RemoveAll(ns: seq<Cnode>, id: RuleId): seq<Cnode> {
    if ns == [] then [] else [Remove(ns[0], id)] + RemoveAll(ns[1..], id)
  }

  lemma {:induction false} DropBag(q: seq<Rule>, id: RuleId, r: Rule)
    ensures multiset(Drop(q, id))[r] == if r.id == id then 0 else multiset(q)[r]
  {
    if q != [] {
      DropBag(q[1..], id, r);
      assert q == [q[0]] + q[1..];
    }
  }

  lemma {:induction false} DropSorted(q: seq<Rule>, id: RuleId)
    requires Sorted(q)
    ensures Sorted(Drop(q, id))
  {
    if q != [] {
      DropSorted(q[1..], id);
      var w := Drop(q[1..], id);
      forall i | 0 <= i < |w|
        ensures q[0].priority <= w[i].priority
      {
        DropBag(q[1..], id, w[i]);
        assert w[i] in multiset(w);
        assert w[i] in multiset(q[1..]);
      }
    }
  }

  lemma {:induction false} RemoveBag(n: Cnode, id: RuleId)
    ensures forall r :: Bag(Remove(n, id))[r] == if r.id == id then 0 else Bag(n)[r]
    decreases n
  {
    forall r {
      DropBag(n.rules, id, r);
    }
    if n.Split? {
      RemoveAllBag(n.children, id);
      if n.any.Some? {
        RemoveBag(n.any.value, id);
      }
    }
  }

  lemma {:induction false} RemoveAllBag(ns: seq<Cnode>, id: RuleId)
    ensures forall r :: BagOfAll(RemoveAll(ns, id))[r] == if r.id == id then 0 else BagOfAll(ns)[r]
    decreases ns
  {
    if ns != [] {
      RemoveBag(ns[0], id);
      RemoveAllBag(ns[1..], id);
      assert RemoveAll(ns, id)[1..] == RemoveAll(ns[1..], id);
    }
  }

  lemma {:induction false} RemovePlaced(n: Cnode, id: RuleId)
    requires Placed(n)
    ensures Placed(Remove(n, id))
    decreases n
  {
    DropSorted(n.rules, id);
    if n.Split? {
      RemoveAllPlaced(n.field, n.children, id);
      if n.any.Some? {
        RemovePlaced(n.any.value, id);
        RemoveBag(n.any.value, id);
      }
    }
  }

  lemma {:induction false} RemoveAllValues(ns: seq<Cnode>, id: RuleId, v: Value)
    requires forall n | n in ns :: n.value != v
    ensures forall n | n in RemoveAll(ns, id) :: n.value != v
  {
    if ns != [] {
      RemoveAllValues(ns[1..], id, v);
    }
  }

  lemma {:induction false} RemoveAllPlaced(f: Field, ns: seq<Cnode>, id: RuleId)
    requires PlacedAll(f, ns)
    ensures PlacedAll(f, RemoveAll(ns, id))
    decreases ns
  {
    if ns != [] {
      RemovePlaced(ns[0], id);
      RemoveBag(ns[0], id);
      RemoveAllPlaced(f, ns[1..], id);
      RemoveAllValues(ns[1..], id, ns[0].value);
      assert RemoveAll(ns, id)[1..] == RemoveAll(ns[1..], id);
    }
  }

  // ----- Traversing -----

  function Size(n: Cnode): nat {
    1 + if n.Leaf? then 0 else SizeOfAll(n.children) + if n.any.None? then 0 else Size(n.any.value)
  }

  function SizeOfAll(ns: seq<Cnode>): nat {
    if ns == [] then 0 else Size(ns[0]) + SizeOfAll(ns[1..])
  }

  /** The child with the key, if there is one. */
  function Pick(ns: seq<Cnode>, k: Value): (ms: seq<Cnode>)
    ensures SizeOfAll(ms) <= SizeOfAll(ns)
  {
    if ns == [] then []
    else if ns[0].value == k then [ns[0]]
    else Pick(ns[1..], k)
  }

  /** The nodes below `n` in which rules that match `d` may be. */
  function Below(n: Cnode, d: Data): (ms: seq<Cnode>)
    requires n.Split?
    ensures SizeOfAll(ms) < Size(n)
  {
    var keys := Keys(d, n.field);
    var picked := if keys == [] then n.children else Pick(n.children, keys[0]);
    if n.any.None? then picked
    else
      assert ([n.any.value] + picked)[1..] == picked;
      [n.any.value] + picked
  }

  /** A traversal goes to the child for rules that do not constrain the field, and of the
      others to that with the key of the data, or to all if the data has none. */
  lemma {:induction false} BelowIs(n: Cnode, d: Data, c: Cnode)
    requires n.Split? && Distinct(n.children)
    ensures c in Below(n, d) <==>
              || n.any == Some(c)
              || (c in n.children && (Keys(d, n.field) == [] || c.value in Keys(d, n.field)))
  {
    if Keys(d, n.field) != [] {
      PickIs(n.children, Keys(d, n.field)[0], c);
    }
  }

  /** No two children have the same key. */
  predicate Distinct(ns: seq<Cnode>) {
    forall i, j | 0 <= i < j < |ns| :: ns[i].value != ns[j].value
  }

  lemma {:induction false} PickIs(ns: seq<Cnode>, k: Value, c: Cnode)
    requires Distinct(ns)
    ensures c in Pick(ns, k) <==> c in ns && c.value == k
  {
    if ns != [] {
      PickIs(ns[1..], k, c);
      assert ns[0].value == k ==> forall m | m in ns[1..] :: m.value != k;
    }
  }

  lemma {:induction false} PlacedDistinct(f: Field, ns: seq<Cnode>)
    requires PlacedAll(f, ns)
    ensures Distinct(ns)
    decreases |ns|
  {
    if ns != [] {
      PlacedDistinct(f, ns[1..]);
      forall i, j | 0 <= i < j < |ns|
        ensures ns[i].value != ns[j].value
      {
        assert ns[j] == ns[1..][j - 1] && ns[j] in ns[1..];
        assert i > 0 ==> ns[i] == ns[1..][i - 1];
      }
    }
  }

  /** A packet cannot be led past a node split on the destination access point. */
  lemma UnanswerableExample(v: Value, q: seq<Rule>, ns: seq<Cnode>, any: Option<Cnode>, h: map<Field, Value>)
    ensures !Answerable(Split(v, q, AP_DST, ns, any), Flow(h))
  {
  }

  /** The rules on the lists that a traversal for `d` reaches. */
  ghost function Visited(n: Cnode, d: Data): multiset<Rule>
    decreases Size(n), 0
  {
    multiset(n.rules) + if n.Leaf? then multiset{} else VisitedAll(Below(n, d), d)
  }

  ghost function VisitedAll(ns: seq<Cnode>, d: Data): multiset<Rule>
    decreases SizeOfAll(ns), 1
  {
    if ns == [] then multiset{} else Visited(ns[0], d) + VisitedAll(ns[1..], d)
  }

  /** The traversal asks the data only for fields that it can be asked for. */
  ghost predicate Answerable(n: Cnode, d: Data)
    decreases Size(n), 0
  {
    n.Leaf? || (Askable(d, n.field) && AnswerableAll(Below(n, d), d))
  }

  ghost predicate AnswerableAll(ns: seq<Cnode>, d: Data)
    decreases SizeOfAll(ns), 1
  {
    ns == [] || (Answerable(ns[0], d) && AnswerableAll(ns[1..], d))
  }

  lemma {:induction false} VisitedWithin(n: Cnode, d: Data)
    ensures Visited(n, d) <= Bag(n)
    decreases n
  {
    if n.Split? {
      var keys := Keys(d, n.field);
      var picked := if keys == [] then n.children else Pick(n.children, keys[0]);
      VisitedAllWithin(n.children, d);
      if keys != [] {
        PickWithin(n.children, d, keys[0]);
      }
      if n.any.Some? {
        VisitedWithin(n.any.value, d);
        assert ([n.any.value] + picked)[1..] == picked;
      }
    }
  }

  lemma {:induction false} VisitedAllWithin(ns: seq<Cnode>, d: Data)
    ensures VisitedAll(ns, d) <= BagOfAll(ns)
    decreases ns
  {
    if ns != [] {
      VisitedWithin(ns[0], d);
      VisitedAllWithin(ns[1..], d);
    }
  }

  lemma {:induction false} PickWithin(ns: seq<Cnode>, d: Data, k: Value)
    ensures VisitedAll(Pick(ns, k), d) <= BagOfAll(ns)
    decreases ns
  {
    if ns != [] {
      VisitedWithin(ns[0], d);
      PickWithin(ns[1..], d, k);
      if ns[0].value == k {
        assert [ns[0]][1..] == [];
      }
    }
  }

  lemma VisitedBelow(n: Cnode, d: Data, picked: seq<Cnode>)
    requires n.Split? && picked == if Keys(d, n.field) == [] then n.children else Pick(n.children, Keys(d, n.field)[0])
    ensures Visited(n, d) == multiset(n.rules) + VisitedAll(picked, d) + if n.any.None? then multiset{} else Visited(n.any.value, d)
  {
    hide Keys, Pick, VisitedAll;
    if n.any.Some? {
      VisitedCons(n.any.value, picked, d);
    }
  }

  lemma VisitedCons(c: Cnode, ns: seq<Cnode>, d: Data)
    ensures VisitedAll([c] + ns, d) == Visited(c, d) + VisitedAll(ns, d)
  {
    hide Visited;
    assert ([c] + ns)[1..] == ns;
  }

  lemma PlacedParts(n: Cnode)
    requires n.Split? && Placed(n)
    ensures PlacedAll(n.field, n.children) && (n.any.Some? ==> Placed(n.any.value))
    ensures Bag(n) == multiset(n.rules) + BagOfAll(n.children) + if n.any.None? then multiset{} else Bag(n.any.value)
  {
    hide BagOfAll, PlacedAll;
  }

  /** The tree agrees with a search of everything: a traversal meets every rule that matches,
      as often as it is in the tree. */
  lemma {:induction false} TraversalCovers(n: Cnode, d: Data, r: Rule)
    requires Placed(n) && Matches(r.expr, d)
    ensures Visited(n, d)[r] == Bag(n)[r]
    decreases n
  {
    if n.Split? {
      var keys := Keys(d, n.field);
      VisitedBelow(n, d, if keys == [] then n.children else Pick(n.children, keys[0]));
      assert keys == [] || keys == [keys[0]];
      PlacedParts(n);
      hide Visited, VisitedAll, Bag, BagOfAll, BagOfAny, Matches, Keys, Pick, Below, Placed, PlacedAll;
      if keys == [] {
        AllCovered(n.field, n.children, d, r);
      } else {
        PickCovers(n.field, n.children, d, keys[0], r);
      }
      if n.any.Some? {
        TraversalCovers(n.any.value, d, r);
      }
    }
  }

  lemma {:induction false} AllCovered(f: Field, ns: seq<Cnode>, d: Data, r: Rule)
    requires PlacedAll(f, ns) && Matches(r.expr, d)
    ensures VisitedAll(ns, d)[r] == BagOfAll(ns)[r]
    decreases ns
  {
    if ns != [] {
      TraversalCovers(ns[0], d, r);
      AllCovered(f, ns[1..], d, r);
    }
  }

  lemma {:induction false} KeyElsewhere(f: Field, ns: seq<Cnode>, r: Rule)
    requires PlacedAll(f, ns) && forall n | n in ns :: !HasKey(r, f, n.value)
    ensures BagOfAll(ns)[r] == 0
    decreases ns
  {
    if ns != [] {
      assert r !in Bag(ns[0]);
      KeyElsewhere(f, ns[1..], r);
    }
  }

  lemma {:induction false} PickCovers(f: Field, ns: seq<Cnode>, d: Data, k: Value, r: Rule)
    requires PlacedAll(f, ns) && Matches(r.expr, d) && Keys(d, f) == [k]
    ensures VisitedAll(Pick(ns, k), d)[r] == BagOfAll(ns)[r]
    decreases ns
  {
    hide Visited, Matches, Keys, Key, Placed, Bag;
    if f in r.expr {
      MatchHasKey(r.expr, d, f);
    }
    if ns != [] {
      if ns[0].value == k {
        TraversalCovers(ns[0], d, r);
        assert [ns[0]][1..] == [];
        KeyElsewhere(f, ns[1..], r);
      } else {
        assert r !in Bag(ns[0]);
        PickCovers(f, ns[1..], d, k, r);
      }
    }
  }

  // ----- Positions in the lists -----

  predicate IsSuffix(q: seq<Rule>, l: seq<Rule>) {
    |q| <= |l| && l[|l| - |q|..] == q
  }

  /** `q` is what is left, from some position on, of one of the lists in the tree. */
  ghost predicate Onto(n: Cnode, q: seq<Rule>)
    decreases n
  {
    || IsSuffix(q, n.rules)
    || (n.Split? && (OntoAll(n.children, q) || (n.any.Some? && Onto(n.any.value, q))))
  }

  ghost predicate OntoAll(ns: seq<Cnode>, q: seq<Rule>)
    decreases ns
  {
    ns != [] && (Onto(ns[0], q) || OntoAll(ns[1..], q))
  }

  lemma {:induction false} DropSuffix(l: seq<Rule>, q: seq<Rule>, id: RuleId)
    requires IsSuffix(q, l) && forall r | r in q :: r.id != id
    ensures IsSuffix(q, Drop(l, id))
    decreases |l|
  {
    if |q| == |l| {
      DropNothing(l, id);
    } else {
      DropSuffix(l[1..], q, id);
    }
  }

  lemma {:induction false} DropNothing(q: seq<Rule>, id: RuleId)
    requires forall r | r in q :: r.id != id
    ensures Drop(q, id) == q
  {
    if q != [] {
      DropNothing(q[1..], id);
    }
  }

  /** Removing a rule leaves in place every position behind it, or on another list. */
  lemma {:induction false} RemoveOnto(n: Cnode, q: seq<Rule>, id: RuleId)
    requires Onto(n, q) && forall r | r in q :: r.id != id
    ensures Onto(Remove(n, id), q)
    decreases n
  {
    if IsSuffix(q, n.rules) {
      DropSuffix(n.rules, q, id);
    } else if OntoAll(n.children, q) {
      RemoveAllOnto(n.children, q, id);
    } else {
      RemoveOnto(n.any.value, q, id);
    }
  }

  lemma {:induction false} RemoveAllOnto(ns: seq<Cnode>, q: seq<Rule>, id: RuleId)
    requires OntoAll(ns, q) && forall r | r in q :: r.id != id
    ensures OntoAll(RemoveAll(ns, id), q)
    decreases ns
  {
    assert RemoveAll(ns, id)[1..] == RemoveAll(ns[1..], id);
    if Onto(ns[0], q) {
      RemoveOnto(ns[0], q, id);
    } else {
      RemoveAllOnto(ns[1..], q, id);
    }
  }

  lemma {:induction false} OntoSuffix(n: Cnode, q: seq<Rule>, p: seq<Rule>)
    requires Onto(n, q) && IsSuffix(p, q)
    ensures Onto(n, p)
    decreases n
  {
    if IsSuffix(q, n.rules) {
      assert IsSuffix(p, n.rules);
    } else if OntoAll(n.children, q) {
      OntoAllSuffix(n.children, q, p);
    } else {
      OntoSuffix(n.any.value, q, p);
    }
  }

  lemma {:induction false} OntoAllSuffix(ns: seq<Cnode>, q: seq<Rule>, p: seq<Rule>)
    requires OntoAll(ns, q) && IsSuffix(p, q)
    ensures OntoAll(ns, p)
    decreases ns
  {
    if Onto(ns[0], q) {
      OntoSuffix(ns[0], q, p);
    } else {
      OntoAllSuffix(ns[1..], q, p);
    }
  }

  lemma {:induction false} OntoBag(n: Cnode, q: seq<Rule>, r: Rule)
    requires Onto(n, q) && r in q
    ensures r in Bag(n)
    decreases n
  {
    if IsSuffix(q, n.rules) {
      assert r in n.rules;
    } else if OntoAll(n.children, q) {
      OntoAllBag(n.children, q, r);
    } else {
      OntoBag(n.any.value, q, r);
    }
  }

  lemma {:induction false} OntoAllBag(ns: seq<Cnode>, q: seq<Rule>, r: Rule)
    requires OntoAll(ns, q) && r in q
    ensures r in BagOfAll(ns)
    decreases ns
  {
    if Onto(ns[0], q) {
      OntoBag(ns[0], q, r);
    } else {
      OntoAllBag(ns[1..], q, r);
    }
  }

  /** The nodes of a tree. */
  ghost predicate Has(n: Cnode, m: Cnode)
    decreases n
  {
    n == m || (n.Split? && (HasAll(n.children, m) || (n.any.Some? && Has(n.any.value, m))))
  }

  ghost predicate HasAll(ns: seq<Cnode>, m: Cnode)
    decreases ns
  {
    ns != [] && (Has(ns[0], m) || HasAll(ns[1..], m))
  }

  lemma {:induction false} HasPlaced(n: Cnode, m: Cnode)
    requires Has(n, m) && Placed(n)
    ensures Placed(m)
    decreases n
  {
    if n == m {
    } else if HasAll(n.children, m) {
      HasAllPlaced(n.field, n.children, m);
    } else {
      HasPlaced(n.any.value, m);
    }
  }

  lemma {:induction false} HasAllPlaced(f: Field, ns: seq<Cnode>, m: Cnode)
    requires HasAll(ns, m) && PlacedAll(f, ns)
    ensures Placed(m)
    decreases ns
  {
    if Has(ns[0], m) {
      HasPlaced(ns[0], m);
    } else {
      HasAllPlaced(f, ns[1..], m);
    }
  }

  lemma {:induction false} HasOnto(n: Cnode, m: Cnode)
    requires Has(n, m)
    ensures Onto(n, m.rules)
    decreases n
  {
    if n == m {
    } else if HasAll(n.children, m) {
      HasAllOnto(n.children, m);
    } else {
      HasOnto(n.any.value, m);
    }
  }

  lemma {:induction false} HasAllOnto(ns: seq<Cnode>, m: Cnode)
    requires HasAll(ns, m)
    ensures OntoAll(ns, m.rules)
    decreases ns
  {
    if Has(ns[0], m) {
      HasOnto(ns[0], m);
    } else {
      HasAllOnto(ns[1..], m);
    }
  }

  lemma {:induction false} HasTransitive(n: Cnode, m: Cnode, l: Cnode)
    requires Has(n, m) && Has(m, l)
    ensures Has(n, l)
    decreases n
  {
    if n == m {
    } else if HasAll(n.children, m) {
      HasAllTransitive(n.children, m, l);
    } else {
      HasTransitive(n.any.value, m, l);
    }
  }

  lemma {:induction false} HasAllTransitive(ns: seq<Cnode>, m: Cnode, l: Cnode)
    requires HasAll(ns, m) && Has(m, l)
    ensures HasAll(ns, l)
    decreases ns
  {
    if Has(ns[0], m) {
      HasTransitive(ns[0], m, l);
    } else {
      HasAllTransitive(ns[1..], m, l);
    }
  }

  lemma {:induction false} MemberHas(ns: seq<Cnode>, m: Cnode)
    requires m in ns
    ensures HasAll(ns, m)
    decreases ns
  {
    if m != ns[0] {
      MemberHas(ns[1..], m);
    }
  }

  lemma {:induction false} PickMember(ns: seq<Cnode>, k: Value)
    ensures forall m | m in Pick(ns, k) :: m in ns
    decreases ns
  {
    if ns != [] {
      PickMember(ns[1..], k);
    }
  }

  lemma BelowHas(n: Cnode, m: Cnode, d: Data)
    requires Has(n, m) && m.Split?
    ensures forall l | l in Below(m, d) :: Has(n, l)
  {
    forall l | l in Below(m, d)
      ensures Has(n, l)
    {
      if l in m.children {
        MemberHas(m.children, l);
      } else if Keys(d, m.field) != [] {
        PickMember(m.children, Keys(d, m.field)[0]);
      }
      assert Has(m, l);
      HasTransitive(n, m, l);
    }
  }

  // ----- Building -----

  /** The choice of a field to split a leaf on, if it is worth splitting. */
  type Heuristic = (Cnode, set<Field>) -> Option<Field>

  function AddRules(n: Cnode, rs: seq<Rule>, path: set<Field>): (m: Cnode)
    ensures m.value == n.value && m.Split? == n.Split? && (n.Split? ==> m.field == n.field)
    decreases |rs|
  {
    if rs == [] then n else AddRules(AddRule(n, rs[0], path), rs[1..], path)
  }

  const FIELDS: set<Field> := {AP_SRC, AP_DST, DL_VLAN, DL_VLAN_PCP, DL_TYPE, DL_SRC, DL_DST, NW_SRC, NW_DST, NW_PROTO,
                               TP_SRC, TP_DST, GROUP_SRC}

  /** Splits leaves, and then what they were split into, wherever the heuristic names a
      field that the path has not been split on yet. */
  function Build(n: Cnode, path: set<Field>, choose: Heuristic): (m: Cnode)
    ensures m.value == n.value
    decreases FIELDS - path, n, 1
  {
    if n.Split? then BuildBelow(n, path, choose)
    else
      var f := choose(n, path);
      if f.None? || f.value in path || f.value !in FIELDS then n
      else
        var m := AddRules(Split(n.value, [], f.value, [], None), n.rules, path);
        m.(children := BuildAll(m.children, path + {f.value}, choose),
           any := if m.any.None? then None else Some(Build(m.any.value, path + {f.value}, choose)))
  }

  function BuildBelow(n: Cnode, path: set<Field>, choose: Heuristic): Cnode
    requires n.Split?
    decreases FIELDS - path, n, 0
  {
    n.(children := BuildAll(n.children, path + {n.field}, choose),
       any := if n.any.None? then None else Some(Build(n.any.value, path + {n.field}, choose)))
  }

  function BuildAll(ns: seq<Cnode>, path: set<Field>, choose: Heuristic): seq<Cnode>
    decreases FIELDS - path, ns, 0
  {
    if ns == [] then [] else [Build(ns[0], path, choose)] + BuildAll(ns[1..], path, choose)
  }

  lemma {:induction false} AddRulesBag(n: Cnode, rs: seq<Rule>, path: set<Field>)
    ensures Bag(AddRules(n, rs, path)) == Bag(n) + multiset(rs)
    decreases |rs|
  {
    if rs != [] {
      var m := AddRule(n, rs[0], path);
      AddRuleBag(n, rs[0], path);
      AddRulesBag(m, rs[1..], path);
      assert rs == [rs[0]] + rs[1..];
      assert multiset(rs) == multiset{rs[0]} + multiset(rs[1..]);
    }
  }

  lemma {:induction false} AddRulesPlaced(n: Cnode, rs: seq<Rule>, path: set<Field>)
    requires Placed(n)
    ensures Placed(AddRules(n, rs, path))
    decreases |rs|
  {
    if rs != [] {
      AddRulePlaced(n, rs[0], path);
      AddRulesPlaced(AddRule(n, rs[0], path), rs[1..], path);
    }
  }

  lemma {:induction false} BuildAllValues(ns: seq<Cnode>, path: set<Field>, choose: Heuristic, v: Value)
    requires forall n | n in ns :: n.value != v
    ensures forall n | n in BuildAll(ns, path, choose) :: n.value != v
    decreases |ns|
  {
    if ns != [] {
      BuildAllValues(ns[1..], path, choose, v);
    }
  }

  /** Building keeps the rules and their places, whatever the heuristic. */
  lemma {:induction false} BuildCorrect(n: Cnode, path: set<Field>, choose: Heuristic)
    requires Placed(n)
    ensures Bag(Build(n, path, choose)) == Bag(n)
    ensures Placed(Build(n, path, choose))
    decreases FIELDS - path, n, 1
  {
    if n.Split? {
      BuildBelowCorrect(n, path, choose);
    } else {
      var f := choose(n, path);
      if !(f.None? || f.value in path || f.value !in FIELDS) {
        var m := AddRules(Split(n.value, [], f.value, [], None), n.rules, path);
        AddRulesBag(Split(n.value, [], f.value, [], None), n.rules, path);
        AddRulesPlaced(Split(n.value, [], f.value, [], None), n.rules, path);
        BuildAllCorrect(m.field, m.children, path + {f.value}, choose);
        if m.any.Some? {
          BuildCorrect(m.any.value, path + {f.value}, choose);
        }
      }
    }
  }

  lemma {:induction false} BuildBelowCorrect(n: Cnode, path: set<Field>, choose: Heuristic)
    requires n.Split? && Placed(n)
    ensures Bag(BuildBelow(n, path, choose)) == Bag(n)
    ensures Placed(BuildBelow(n, path, choose))
    decreases FIELDS - path, n, 0
  {
    BuildAllCorrect(n.field, n.children, path + {n.field}, choose);
    if n.any.Some? {
      BuildCorrect(n.any.value, path + {n.field}, choose);
    }
  }

  lemma {:induction false} BuildAllCorrect(f: Field, ns: seq<Cnode>, path: set<Field>, choose: Heuristic)
    requires PlacedAll(f, ns)
    ensures BagOfAll(BuildAll(ns, path, choose)) == BagOfAll(ns)
    ensures PlacedAll(f, BuildAll(ns, path, choose))
    decreases FIELDS - path, ns, 0
  {
    if ns != [] {
      BuildCorrect(ns[0], path, choose);
      BuildAllCorrect(f, ns[1..], path, choose);
      BuildAllValues(ns[1..], path, choose, ns[0].value);
      assert BuildAll(ns, path, choose)[1..] == BuildAll(ns[1..], path, choose);
    }
  }

  // ----- What building is for -----

  /** The heuristic names a field that the tree can split on and that the path has not been
      split on yet. */
  predicate Eligible(f: Option<Field>, path: set<Field>) {
    f.Some? && f.value !in path && f.value < GROUP_DST
  }

  lemma FieldsSplitOn(f: Field)
    ensures f in FIELDS <==> f < GROUP_DST
  {
  }

  /** No leaf is left that the heuristic would split. */
  ghost predicate Built(n: Cnode, path: set<Field>, choose: Heuristic)
    decreases n
  {
    if n.Leaf? then !Eligible(choose(n, path), path)
    else BuiltAll(n.children, path + {n.field}, choose) && (n.any.Some? ==> Built(n.any.value, path + {n.field}, choose))
  }

  ghost predicate BuiltAll(ns: seq<Cnode>, path: set<Field>, choose: Heuristic)
    decreases ns
  {
    ns == [] || (Built(ns[0], path, choose) && BuiltAll(ns[1..], path, choose))
  }

  /** Building splits a leaf exactly if the heuristic names an eligible field, and on it. */
  lemma BuildSplits(n: Cnode, path: set<Field>, choose: Heuristic)
    requires n.Leaf?
    ensures Build(n, path, choose).Split? <==> Eligible(choose(n, path), path)
    ensures Build(n, path, choose).Split? ==> Build(n, path, choose).field == choose(n, path).value
    ensures Build(n, path, choose).Leaf? ==> Build(n, path, choose) == n
  {
    if choose(n, path).Some? {
      FieldsSplitOn(choose(n, path).value);
    }
  }

  /** Building goes on until nothing is left to split. */
  lemma {:induction false} BuildSettles(n: Cnode, path: set<Field>, choose: Heuristic)
    ensures Built(Build(n, path, choose), path, choose)
    decreases FIELDS - path, n, 1
  {
    if n.Split? {
      BuildBelowSettles(n, path, choose);
    } else {
      BuildSplits(n, path, choose);
      var f := choose(n, path);
      if Eligible(f, path) {
        FieldsSplitOn(f.value);
        var m := AddRules(Split(n.value, [], f.value, [], None), n.rules, path);
        BuildAllSettles(m.children, path + {f.value}, choose);
        if m.any.Some? {
          BuildSettles(m.any.value, path + {f.value}, choose);
        }
      }
    }
  }

  lemma {:induction false} BuildBelowSettles(n: Cnode, path: set<Field>, choose: Heuristic)
    requires n.Split?
    ensures Built(BuildBelow(n, path, choose), path, choose)
    decreases FIELDS - path, n, 0
  {
    BuildAllSettles(n.children, path + {n.field}, choose);
    if n.any.Some? {
      BuildSettles(n.any.value, path + {n.field}, choose);
    }
  }

  lemma {:induction false} BuildAllSettles(ns: seq<Cnode>, path: set<Field>, choose: Heuristic)
    ensures BuiltAll(BuildAll(ns, path, choose), path, choose)
    decreases FIELDS - path, ns, 0
  {
    if ns != [] {
      BuildSettles(ns[0], path, choose);
      BuildAllSettles(ns[1..], path, choose);
      assert BuildAll(ns, path, choose)[1..] == BuildAll(ns[1..], path, choose);
    }
  }

  // ----- Where rules sink to -----

  /** Of the rules at or below a split, those on its own list are exactly the ones that
      constrain no field beyond the path. */
  ghost predicate Sifted(n: Cnode, path: set<Field>)
    decreases n
  {
    n.Split? ==>
      && (forall r | r in n.rules :: r.expr.Keys <= path)
      && (forall r | r in BagOfAll(n.children) + BagOfAny(n.any) :: !(r.expr.Keys <= path))
      && SiftedAll(n.children, path + {n.field})
      && (n.any.Some? ==> Sifted(n.any.value, path + {n.field}))
  }

  ghost predicate SiftedAll(ns: seq<Cnode>, path: set<Field>)
    decreases ns
  {
    ns == [] || (Sifted(ns[0], path) && SiftedAll(ns[1..], path))
  }

  lemma {:induction false} InsertMember(q: seq<Rule>, r: Rule, x: Rule)
    ensures x in Insert(q, r) <==> x == r || x in q
  {
    InsertBag(q, r);
    assert x in multiset(Insert(q, r)) <==> x in multiset(q) + multiset{r};
  }

  lemma StaysSifted(n: Cnode, r: Rule, path: set<Field>)
    requires n.Split? && Sifted(n, path) && r.expr.Keys <= path
    ensures Sifted(n.(rules := Insert(n.rules, r)), path)
  {
    forall x | x in Insert(n.rules, r)
      ensures x.expr.Keys <= path
    {
      InsertMember(n.rules, r, x);
    }
  }

  lemma SinksSifted(n: Cnode, r: Rule, path: set<Field>, children: seq<Cnode>, any: Option<Cnode>)
    requires n.Split? && Sifted(n, path) && !(r.expr.Keys <= path)
    requires SiftedAll(children, path + {n.field}) && (any.Some? ==> Sifted(any.value, path + {n.field}))
    requires BagOfAll(children) + BagOfAny(any) == BagOfAll(n.children) + BagOfAny(n.any) + multiset{r}
    ensures Sifted(n.(children := children, any := any), path)
  {
  }

  lemma AddRuleBelow(n: Cnode, r: Rule, path: set<Field>)
    requires n.Split? && Splittable(r.expr, path)
    ensures var m := AddRule(n, r, path);
      && m.Split? && m.rules == n.rules
      && BagOfAll(m.children) + BagOfAny(m.any) == BagOfAll(n.children) + BagOfAny(n.any) + multiset{r}
  {
    hide BagOfAll, BagOfAny, AddToChild;
    var m := AddRule(n, r, path);
    AddRuleBag(n, r, path);
    assert BagOfAll(m.children) + BagOfAny(m.any) == Bag(m) - multiset(m.rules);
    assert BagOfAll(n.children) + BagOfAny(n.any) == Bag(n) - multiset(n.rules);
  }

  lemma {:induction false} AddRuleSifted(n: Cnode, r: Rule, path: set<Field>)
    requires Sifted(n, path)
    ensures Sifted(AddRule(n, r, path), path)
    decreases n, 1
  {
    hide Bag, BagOfAll, BagOfAny, Insert, Key;
    if n.Split? {
      if !Splittable(r.expr, path) {
        StaysSifted(n, r, path);
      } else {
        var m := AddRule(n, r, path);
        AddRuleBelow(n, r, path);
        if n.field in r.expr {
          var k := Key(n.field, r.expr[n.field]);
          if forall c | c in n.children :: c.value != k {
            assert m.children[1..] == n.children;
          } else {
            AddToChildSifted(n.children, k, r, path + {n.field});
          }
        } else if n.any.Some? {
          AddRuleSifted(n.any.value, r, path + {n.field});
        }
        SinksSifted(n, r, path, m.children, m.any);
      }
    }
  }

  lemma {:induction false} AddToChildSifted(ns: seq<Cnode>, k: Value, r: Rule, path: set<Field>)
    requires SiftedAll(ns, path)
    ensures SiftedAll(AddToChild(ns, k, r, path), path)
    decreases ns, 0
  {
    if ns != [] {
      var ms := AddToChild(ns, k, r, path);
      if ns[0].value == k {
        AddRuleSifted(ns[0], r, path);
        assert ms[1..] == ns[1..];
      } else {
        AddToChildSifted(ns[1..], k, r, path);
        assert ms[1..] == AddToChild(ns[1..], k, r, path);
      }
    }
  }

  lemma DropMember(q: seq<Rule>, id: RuleId, x: Rule)
    requires x in Drop(q, id)
    ensures x in q
  {
    DropBag(q, id, x);
    assert x in multiset(Drop(q, id));
    assert x in multiset(q);
  }

  lemma RemoveMember(n: Cnode, id: RuleId, r: Rule)
    requires n.Split? && r in BagOfAll(RemoveAll(n.children, id)) + BagOfAny(Remove(n, id).any)
    ensures r in BagOfAll(n.children) + BagOfAny(n.any)
  {
    hide BagOfAll, Bag, Drop;
    RemoveAllBag(n.children, id);
    if n.any.Some? {
      RemoveBag(n.any.value, id);
    }
  }

  lemma {:induction false} RemoveSifted(n: Cnode, id: RuleId, path: set<Field>)
    requires Sifted(n, path)
    ensures Sifted(Remove(n, id), path)
    decreases n
  {
    hide Bag, BagOfAll, BagOfAny, Drop;
    if n.Split? {
      forall x | x in Drop(n.rules, id)
        ensures x in n.rules
      {
        DropMember(n.rules, id, x);
      }
      forall r | r in BagOfAll(RemoveAll(n.children, id)) + BagOfAny(Remove(n, id).any)
        ensures !(r.expr.Keys <= path)
      {
        RemoveMember(n, id, r);
      }
      RemoveAllSifted(n.children, id, path + {n.field});
      if n.any.Some? {
        RemoveSifted(n.any.value, id, path + {n.field});
      }
    }
  }

  lemma {:induction false} RemoveAllSifted(ns: seq<Cnode>, id: RuleId, path: set<Field>)
    requires SiftedAll(ns, path)
    ensures SiftedAll(RemoveAll(ns, id), path)
    decreases ns
  {
    if ns != [] {
      RemoveSifted(ns[0], id, path);
      RemoveAllSifted(ns[1..], id, path);
      assert RemoveAll(ns, id)[1..] == RemoveAll(ns[1..], id);
    }
  }

  lemma {:induction false} AddRulesSifted(n: Cnode, rs: seq<Rule>, path: set<Field>)
    requires Sifted(n, path)
    ensures Sifted(AddRules(n, rs, path), path)
    decreases |rs|
  {
    if rs != [] {
      AddRuleSifted(n, rs[0], path);
      AddRulesSifted(AddRule(n, rs[0], path), rs[1..], path);
    }
  }

  /** Building sends every rule down as far as the fields that it constrains lead. */
  lemma {:induction false} BuildSifted(n: Cnode, path: set<Field>, choose: Heuristic)
    requires Sifted(n, path) && Placed(n)
    ensures Sifted(Build(n, path, choose), path)
    decreases FIELDS - path, n, 1
  {
    if n.Split? {
      BuildBelowSifted(n, path, choose);
    } else {
      var f := choose(n, path);
      if !(f.None? || f.value in path || f.value !in FIELDS) {
        var m := AddRules(Split(n.value, [], f.value, [], None), n.rules, path);
        AddRulesSifted(Split(n.value, [], f.value, [], None), n.rules, path);
        AddRulesPlaced(Split(n.value, [], f.value, [], None), n.rules, path);
        BuildAllSifted(m.field, m.children, path + {f.value}, choose);
        if m.any.Some? {
          BuildSifted(m.any.value, path + {f.value}, choose);
          BuildCorrect(m.any.value, path + {f.value}, choose);
        }
      }
    }
  }

  lemma {:induction false} BuildBelowSifted(n: Cnode, path: set<Field>, choose: Heuristic)
    requires n.Split? && Sifted(n, path) && Placed(n)
    ensures Sifted(BuildBelow(n, path, choose), path)
    decreases FIELDS - path, n, 0
  {
    BuildAllSifted(n.field, n.children, path + {n.field}, choose);
    if n.any.Some? {
      BuildSifted(n.any.value, path + {n.field}, choose);
      BuildCorrect(n.any.value, path + {n.field}, choose);
    }
  }

  lemma {:induction false} BuildAllSifted(f: Field, ns: seq<Cnode>, path: set<Field>, choose: Heuristic)
    requires SiftedAll(ns, path) && PlacedAll(f, ns)
    ensures SiftedAll(BuildAll(ns, path, choose), path) && BagOfAll(BuildAll(ns, path, choose)) == BagOfAll(ns)
    decreases FIELDS - path, ns, 0
  {
    if ns != [] {
      BuildSifted(ns[0], path, choose);
      BuildCorrect(ns[0], path, choose);
      BuildAllSifted(f, ns[1..], path, choose);
      assert BuildAll(ns, path, choose)[1..] == BuildAll(ns[1..], path, choose);
    }
  }
}
