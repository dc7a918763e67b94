/** The rule classifier: identifiers, the tree of rules, and what is done with the rules that
match. */
module Classifier {
  import opened Wrappers
  import opened PacketExpr
  import opened CnodeTree
  import opened RuleNodes
  import opened CnodeResult

  const MAX_ID: nat := 0xFFFF_FFFF

  /** The tree holds each rule of the identifier map once, and nothing else. */
  ghost predicate Holds(root: Cnode, rules: map<RuleId, Rule>) {
    forall r :: Bag(root)[r] == if r.id in rules && rules[r.id] == r then 1 else 0
  }

  predicate IdsInRange(rules: map<RuleId, Rule>) {
    forall id | id in rules :: 1 <= id <= MAX_ID && rules[id].id == id
  }

  /** `r` matches, and no rule that matches has a lower priority number. */
  ghost predicate IsTop(rules: map<RuleId, Rule>, d: Data, r: Rule) {
    && r.id in rules && rules[r.id] == r && Matches(r.expr, d)
    && forall id | id in rules && Matches(rules[id].expr, d) :: r.priority <= rules[id].priority
  }

  /** Counting up from `from`, and on from 1 after the last identifier, `j` comes before `to`. */
  predicate Tried(from: nat, j: nat, to: nat) {
    if from <= to then from <= j < to else from <= j || j < to
  }

  lemma HoldsAdd(root: Cnode, rules: map<RuleId, Rule>, r: Rule)
    requires Holds(root, rules) && r.id !in rules
    ensures Holds(CnodeTree.AddRule(root, r, {}), rules[r.id := r])
  {
    hide Bag;
    AddRuleBag(root, r, {});
  }

  lemma HoldsRemove(root: Cnode, rules: map<RuleId, Rule>, id: RuleId)
    requires Holds(root, rules)
    ensures Holds(Remove(root, id), rules - {id})
  {
    hide Bag;
    RemoveBag(root, id);
  }

  // ----- Node pointers -----

  /** Every rule has a pointer to the node that has it. */
  ghost predicate Pointed(root: Cnode, rules: map<RuleId, Rule>, node: map<RuleId, Location>) {
    node.Keys == rules.Keys && forall id | id in rules && id in node :: Points(root, node[id], rules[id])
  }

  lemma PointedAdd(root: Cnode, rules: map<RuleId, Rule>, node: map<RuleId, Location>, r: Rule)
    requires Pointed(root, rules, node) && r.id !in rules
    ensures Pointed(CnodeTree.AddRule(root, r, {}), rules[r.id := r], node[r.id := Landing(root, r, {})])
  {
    hide Points, CnodeTree.AddRule, Landing;
    AddPoints(root, r, {});
    forall id | id in rules
      ensures Points(CnodeTree.AddRule(root, r, {}), node[id], rules[id])
    {
      AddKeeps(root, r, {}, node[id], rules[id]);
    }
  }

  lemma PointedRemove(root: Cnode, rules: map<RuleId, Rule>, node: map<RuleId, Location>, id: RuleId)
    requires Pointed(root, rules, node) && IdsInRange(rules)
    ensures Pointed(Remove(root, id), rules - {id}, node - {id})
  {
    hide Points, Remove;
    forall j | j in rules && j != id
      ensures Points(Remove(root, id), node[j], rules[j])
    {
      RemoveKeeps(root, id, node[j], rules[j]);
    }
  }

  lemma HeldIsSole(root: Cnode, rules: map<RuleId, Rule>, id: RuleId)
    requires Holds(root, rules) && IdsInRange(rules) && id in rules
    ensures Sole(Bag(root), rules[id])
  {
    hide Bag;
    forall x | x in Bag(root) && x.id == id
      ensures x == rules[id]
    {
      assert Bag(root)[x] == 1;
    }
  }

  /** Removing a rule through its pointer keeps the classifier in order. */
  lemma DeletedThroughPointer(root: Cnode, rules: map<RuleId, Rule>, node: map<RuleId, Location>, id: RuleId)
    requires Placed(root) && Holds(root, rules) && IdsInRange(rules) && Pointed(root, rules, node) && id in rules
    ensures id in node && NodeAt(root, node[id]).Some? && RemoveAt(root, node[id], id) == Remove(root, id)
    ensures Placed(Remove(root, id)) && Holds(Remove(root, id), rules - {id})
    ensures Pointed(Remove(root, id), rules - {id}, node - {id})
  {
    HeldIsSole(root, rules, id);
    RemovePlaced(root, id);
    HoldsRemove(root, rules, id);
    PointedRemove(root, rules, node, id);
    hide Placed, Holds, Bag, Sole, RemoveAt, Remove;
    RemoveAtIsRemove(root, node[id], rules[id]);
  }

  /** After a walk over the tree every rule has its pointer again. */
  lemma PointedWalk(root: Cnode, rules: map<RuleId, Rule>)
    requires Holds(root, rules) && IdsInRange(rules) && Placed(root)
    ensures Pointed(root, rules, SetNodePointers(root, [], map[]))
  {
    hide Bag, Points, SetNodePointers, Placed;
    var node := SetNodePointers(root, [], map[]);
    SetNodePointersLead(root, root, [], map[]);
    forall id | id in rules
      ensures id in node
    {
      assert rules[id] in Bag(root);
    }
    forall id | id in node
      ensures id in rules && Points(root, node[id], rules[id])
    {
      LedIsHeld(root, rules, node, id);
    }
  }

  lemma LedIsHeld(root: Cnode, rules: map<RuleId, Rule>, node: map<RuleId, Location>, id: RuleId)
    requires Holds(root, rules) && Leads(root, node) && id in node
    ensures id in rules && Points(root, node[id], rules[id])
  {
    hide Bag, Points;
    var r: Rule :| r.id == id && Points(root, node[id], r);
    PointsBag(root, node[id], r);
    assert Bag(root)[r] == if r.id in rules && rules[r.id] == r then 1 else 0;
  }

  // ----- Work stacks -----

  lemma {:induction false} SizeConcat(a: seq<Cnode>, b: seq<Cnode>)
    ensures SizeOfAll(a + b) == SizeOfAll(a) + SizeOfAll(b)
    decreases |a|
  {
    if a == [] {
      assert a + b == b;
    } else {
      SizeConcat(a[1..], b);
      assert (a + b)[1..] == a[1..] + b;
    }
  }

  lemma {:induction false} VisitedConcat(a: seq<Cnode>, b: seq<Cnode>, d: Data)
    ensures VisitedAll(a + b, d) == VisitedAll(a, d) + VisitedAll(b, d)
    decreases |a|
  {
    hide Visited, Size;
    if a == [] {
      assert a + b == b;
    } else {
      VisitedConcat(a[1..], b, d);
      assert (a + b)[1..] == a[1..] + b;
      assert VisitedAll(a + b, d) == Visited(a[0], d) + VisitedAll(a[1..] + b, d);
    }
  }

  lemma {:induction false} AnswerableConcat(a: seq<Cnode>, b: seq<Cnode>, d: Data)
    ensures AnswerableAll(a + b, d) <==> AnswerableAll(a, d) && AnswerableAll(b, d)
    decreases |a|
  {
    hide Answerable, Size;
    if a == [] {
      assert a + b == b;
    } else {
      AnswerableConcat(a[1..], b, d);
      assert (a + b)[1..] == a[1..] + b;
      assert AnswerableAll(a + b, d) <==> Answerable(a[0], d) && AnswerableAll(a[1..] + b, d);
    }
  }

  /** One turn of the traversal keeps what is still to be asked. */
  lemma AnswerableTurn(stack: seq<Cnode>, n: Cnode, d: Data)
    ensures AnswerableAll(stack + [n], d) <==>
              (n.Split? ==> Askable(d, n.field)) && AnswerableAll(Grown(stack, n, d), d)
  {
    AnswerableConcat(stack, [n], d);
    AnswerableConcat(stack, if n.Leaf? then [] else Below(n, d), d);
    AnswerableOne(n, d);
    hide Answerable, AnswerableAll, Size, SizeOfAll;
  }

  lemma AnswerableOne(n: Cnode, d: Data)
    ensures AnswerableAll([n], d) <==> Answerable(n, d)
    ensures AnswerableAll([], d)
    ensures n.Split? ==> (Answerable(n, d) <==> Askable(d, n.field) && AnswerableAll(Below(n, d), d))
    ensures n.Leaf? ==> Answerable(n, d)
  {
    assert [n][1..] == [];
  }

  lemma VisitedPop(ns: seq<Cnode>, d: Data)
    requires ns != []
    ensures var n := |ns| - 1;
      && VisitedAll(ns, d) == VisitedAll(ns[..n], d) + Visited(ns[n], d)
      && SizeOfAll(ns) == SizeOfAll(ns[..n]) + Size(ns[n])
  {
    var n := |ns| - 1;
    assert ns == ns[..n] + [ns[n]];
    assert [ns[n]][1..] == [];
    VisitedConcat(ns[..n], [ns[n]], d);
    SizeConcat(ns[..n], [ns[n]]);
  }

  /** `r` is pending as often as it was, and once for each time it is on a list that the
      traversal of `root` has reached; `stack` is still to be traversed. */
  ghost predicate Collected(before: seq<Cursor>, cs: seq<Cursor>, root: Cnode, stack: seq<Cnode>, d: Data, r: Rule) {
    Pending(cs, r) + VisitedAll(stack, d)[r] == Pending(before, r) + Visited(root, d)[r]
  }

  lemma PendingSnoc(cs: seq<Cursor>, c: Cursor, r: Rule)
    ensures Pending(cs + [c], r) == Pending(cs, r) + multiset(c.rest)[r]
  {
    assert (cs + [c])[..|cs|] == cs;
  }

  ghost predicate CollectedAll(before: seq<Cursor>, cs: seq<Cursor>, root: Cnode, stack: seq<Cnode>, d: Data) {
    forall r :: Collected(before, cs, root, stack, d, r)
  }

  /** The stack after `n` has been taken off and traversed. */
  function Grown(stack: seq<Cnode>, n: Cnode, d: Data): seq<Cnode> {
    stack + if n.Leaf? then [] else Below(n, d)
  }

  function Pushed(cs: seq<Cursor>, rules: seq<Rule>): seq<Cursor> {
    if rules == [] then cs else cs + [Cursor(rules, false)]
  }

  lemma CollectedStart(cs: seq<Cursor>, root: Cnode, d: Data)
    ensures CollectedAll(cs, cs, root, [root], d)
  {
    assert [root][1..] == [];
    assert VisitedAll([root], d) == Visited(root, d);
  }

  lemma VisitedIs(n: Cnode, d: Data)
    ensures Visited(n, d) == multiset(n.rules) + VisitedAll(if n.Leaf? then [] else Below(n, d), d)
    ensures SizeOfAll(if n.Leaf? then [] else Below(n, d)) < Size(n)
  {
  }

  lemma CollectedTurn(before: seq<Cursor>, cs: seq<Cursor>, root: Cnode, stack: seq<Cnode>, n: Cnode, d: Data)
    requires CollectedAll(before, cs, root, stack + [n], d)
    ensures CollectedAll(before, Pushed(cs, n.rules), root, Grown(stack, n, d), d)
    ensures SizeOfAll(Grown(stack, n, d)) < SizeOfAll(stack + [n])
  {
    hide Visited, VisitedAll, Size, SizeOfAll, Pending;
    var below := if n.Leaf? then [] else Below(n, d);
    VisitedPop(stack + [n], d);
    assert (stack + [n])[..|stack|] == stack;
    VisitedConcat(stack, below, d);
    SizeConcat(stack, below);
    VisitedIs(n, d);
    forall r
      ensures Collected(before, Pushed(cs, n.rules), root, Grown(stack, n, d), d, r)
    {
      PendingSnoc(cs, Cursor(n.rules, false), r);
      assert Collected(before, cs, root, stack + [n], d, r);
    }
  }

  lemma BelowAllHas(root: Cnode, n: Cnode, stack: seq<Cnode>, d: Data)
    requires Has(root, n) && forall m | m in stack :: Has(root, m)
    ensures forall m | m in Grown(stack, n, d) :: Has(root, m)
  {
    if n.Split? {
      BelowHas(root, n, d);
    }
  }

  // ----- Results against the tree -----

  /** A matching rule is pending as often as it is in the tree. */
  ghost predicate Synced(cs: seq<Cursor>, root: Cnode, d: Data, r: Rule) {
    Matches(r.expr, d) ==> Pending(cs, r) == Bag(root)[r]
  }

  ghost predicate InSync(cs: seq<Cursor>, root: Cnode, d: Data) {
    forall r :: Synced(cs, root, d, r)
  }

  /** Every cursor is at a position of a list that is in the tree now. */
  ghost predicate OnTree(cs: seq<Cursor>, root: Cnode) {
    forall c | c in cs :: Onto(root, c.rest)
  }

  /** A fresh result has every rule of the tree that matches pending, each once. */
  lemma CollectedInSync(cs: seq<Cursor>, root: Cnode, d: Data)
    requires Placed(root) && CollectedAll([], cs, root, [], d)
    ensures InSync(cs, root, d)
  {
    forall r
      ensures Synced(cs, root, d, r)
    {
      assert Collected([], cs, root, [], d, r);
      if Matches(r.expr, d) {
        TraversalCovers(root, d, r);
      }
    }
  }

  /** The rules that fail the assertion are pending as often as the traversal has met them. */
  ghost predicate Kept(cs: seq<Cursor>, root: Cnode, d: Data) {
    forall r: Rule | !Testable(r.expr, d) :: Pending(cs, r) == Visited(root, d)[r]
  }

  /** The traversal meets a rule that fails the assertion, or a node that does. */
  ghost predicate Hazard(root: Cnode, d: Data) {
    !Answerable(root, d) || exists r: Rule :: r in Visited(root, d) && !Testable(r.expr, d)
  }

  lemma CollectedKept(cs: seq<Cursor>, root: Cnode, d: Data)
    requires CollectedAll([], cs, root, [], d)
    ensures Kept(cs, root, d)
  {
    hide Visited;
    forall r: Rule
      ensures Pending(cs, r) == Visited(root, d)[r]
    {
      assert Collected([], cs, root, [], d, r);
    }
  }

  lemma DeliversKeeps(cs: seq<Cursor>, root: Cnode, d: Data, m: Option<Rule>, after: seq<Cursor>)
    requires Kept(cs, root, d) && Delivers(cs, d, m, after)
    ensures Kept(after, root, d)
    ensures forall r: Rule | !Testable(r.expr, d) && r in Visited(root, d) ::
              m.Some? && m.value.priority <= r.priority
  {
    hide Pending, Visited, Advanced, Testable, Matches;
    forall r: Rule | !Testable(r.expr, d)
      ensures Pending(after, r) == Pending(cs, r)
      ensures r in Visited(root, d) ==> Due(cs, d, r)
    {
      assert Accounts(cs, d, m, after, r);
    }
  }

  lemma PoisonedIsHazard(cs: seq<Cursor>, root: Cnode, d: Data)
    requires Kept(cs, root, d) && Poisoned(cs, d)
    ensures Hazard(root, d)
  {
    hide Pending, Visited, Answerable, Testable;
  }

  /** Deleting by an expression meets no hazard. */
  lemma QueryIsSafe(root: Cnode, d: Data)
    requires d.Query?
    ensures !Hazard(root, d)
  {
    AskableAnswerable(root, root, d);
  }

  /** Nor does a packet, if all rules constrain header fields alone and no node is split on the
      field that packets must not be asked for. */
  lemma SupportedIsSafe(root: Cnode, rules: map<RuleId, Rule>, d: Data)
    requires Holds(root, rules) && IdsInRange(rules)
    requires forall id | id in rules :: rules[id].expr.Keys <= HEADERS
    requires forall m | Has(root, m) && m.Split? :: m.field != AP_DST
    ensures !Hazard(root, d)
  {
    AskableAnswerable(root, root, d);
    VisitedWithin(root, d);
    forall id | id in rules
      ensures Supported(rules[id].expr)
    {
      assert forall f | f in rules[id].expr :: f in HEADERS && f !in UNREADABLE;
    }
    hide Bag, Visited, Answerable, Supported, Has;
    forall r: Rule | r in Visited(root, d)
      ensures Testable(r.expr, d)
    {
      assert Bag(root)[r] == 1;
    }
  }

  lemma {:induction false} AskableAnswerable(root: Cnode, n: Cnode, d: Data)
    requires Has(root, n) && forall m | Has(root, m) && m.Split? :: Askable(d, m.field)
    ensures Answerable(n, d)
    decreases Size(n), 0
  {
    if n.Split? {
      BelowHas(root, n, d);
      AskableAnswerableAll(root, Below(n, d), d);
    }
  }

  lemma {:induction false} AskableAnswerableAll(root: Cnode, ns: seq<Cnode>, d: Data)
    requires forall n | n in ns :: Has(root, n)
    requires forall m | Has(root, m) && m.Split? :: Askable(d, m.field)
    ensures AnswerableAll(ns, d)
    decreases SizeOfAll(ns), 1
  {
    hide Has;
    if ns != [] {
      AskableAnswerable(root, ns[0], d);
      AskableAnswerableAll(root, ns[1..], d);
    }
  }

  lemma DeliveredIsHeld(root: Cnode, rules: map<RuleId, Rule>, cs: seq<Cursor>, d: Data, m: Rule, after: seq<Cursor>)
    requires Holds(root, rules) && InSync(cs, root, d) && Delivers(cs, d, Some(m), after)
    ensures m.id in rules && rules[m.id] == m && Matches(m.expr, d) && Pending(after, m) == 0
  {
    hide Pending, Bag, Advanced;
    assert Synced(cs, root, d, m);
    assert Accounts(cs, d, Some(m), after, m);
  }

  lemma DeletedInSync(root: Cnode, rules: map<RuleId, Rule>, cs: seq<Cursor>, d: Data, m: Rule, after: seq<Cursor>)
    requires Holds(root, rules) && InSync(cs, root, d) && Delivers(cs, d, Some(m), after)
    ensures InSync(after, Remove(root, m.id), d)
  {
    DeliveredIsHeld(root, rules, cs, d, m, after);
    RemoveBag(root, m.id);
    hide Pending, Bag, Advanced;
    forall r
      ensures Synced(after, Remove(root, m.id), d, r)
    {
      assert Synced(cs, root, d, r);
      assert Accounts(cs, d, Some(m), after, r);
    }
  }

  /** Deleting the rule that has just been delivered leaves every cursor at a rule that is
      still there, and at the same position of a list that is still there. */
  lemma DeletedOnTree(root: Cnode, rules: map<RuleId, Rule>, cs: seq<Cursor>, d: Data, m: Rule, after: seq<Cursor>)
    requires Holds(root, rules) && InSync(cs, root, d) && OnTree(cs, root) && Delivers(cs, d, Some(m), after)
    ensures OnTree(after, Remove(root, m.id))
  {
    DeliveredIsHeld(root, rules, cs, d, m, after);
    forall c | c in after
      ensures Onto(Remove(root, m.id), c.rest)
    {
      assert Ahead(c.rest, cs);
      var j :| 0 <= j < |cs| && IsSuffix(c.rest, cs[j].rest);
      assert cs[j] in cs;
      OntoSuffix(root, cs[j].rest, c.rest);
      forall r | r in c.rest
        ensures r.id != m.id
      {
        OntoBag(root, c.rest, r);
        PendingMember(after, r);
      }
      RemoveOnto(root, c.rest, m.id);
    }
  }

  /** What the deletion loop relies on: what is pending is in step with the tree. */
  ghost predicate Following(cs: seq<Cursor>, root: Cnode, start: Cnode, d: Data) {
    InSync(cs, root, d) && OnTree(cs, root) && Kept(cs, start, d)
  }

  lemma FollowingStart(cs: seq<Cursor>, root: Cnode, d: Data)
    requires Placed(root) && CollectedAll([], cs, root, [], d) && forall c | c in cs :: Onto(root, c.rest)
    ensures Following(cs, root, root, d)
  {
    hide Placed, CollectedAll, Onto;
    CollectedInSync(cs, root, d);
    CollectedKept(cs, root, d);
  }

  /** One turn of the deletion loop. */
  lemma DeletedFollowing(root: Cnode, start: Cnode, rules: map<RuleId, Rule>, cs: seq<Cursor>, d: Data, m: Rule, after: seq<Cursor>)
    requires Holds(root, rules) && IdsInRange(rules) && Following(cs, root, start, d) && Delivers(cs, d, Some(m), after)
    ensures m.id in rules && rules[m.id] == m && Matches(m.expr, d)
    ensures Following(after, Remove(root, m.id), start, d)
    ensures |rules - {m.id}| == |rules| - 1
  {
    hide Holds, InSync, OnTree, Kept, Delivers, Remove, Matches;
    DeliveredIsHeld(root, rules, cs, d, m, after);
    DeletedInSync(root, rules, cs, d, m, after);
    DeletedOnTree(root, rules, cs, d, m, after);
    DeliversKeeps(cs, start, d, Some(m), after);
    CardinalityMinus(rules, m.id);
  }

  /** How the deletion loop ends. */
  lemma FollowingEnds(root: Cnode, start: Cnode, rules: map<RuleId, Rule>, cs: seq<Cursor>, d: Data)
    requires Holds(root, rules) && IdsInRange(rules) && Following(cs, root, start, d) && Answerable(start, d)
    ensures Poisoned(cs, d) ==> Hazard(start, d)
    ensures forall after | Delivers(cs, d, None, after) ::
              !Hazard(start, d) && forall id | id in rules :: !Matches(rules[id].expr, d)
  {
    hide Holds, InSync, OnTree, Kept, Delivers, Poisoned, Hazard, Answerable, Matches;
    if Poisoned(cs, d) {
      PoisonedIsHazard(cs, start, d);
    }
    forall after | Delivers(cs, d, None, after)
      ensures !Hazard(start, d) && forall id | id in rules :: !Matches(rules[id].expr, d)
    {
      NothingLeft(root, rules, cs, d, after);
      DeliversKeeps(cs, start, d, None, after);
      HazardIf(start, d);
    }
  }

  /** `rules` are `all` without `deleted` rules, all of which match. */
  ghost predicate Thinned(all: map<RuleId, Rule>, rules: map<RuleId, Rule>, deleted: nat, d: Data) {
    && (forall id | id in rules :: id in all && rules[id] == all[id])
    && (forall id | id in all && id !in rules :: Matches(all[id].expr, d))
    && deleted == |all| - |rules|
  }

  lemma ThinnedNone(all: map<RuleId, Rule>, d: Data)
    ensures Thinned(all, all, 0, d)
  {
  }

  lemma ThinnedIs(all: map<RuleId, Rule>, rules: map<RuleId, Rule>, deleted: nat, d: Data)
    requires Thinned(all, rules, deleted, d)
    ensures forall id | id in rules :: id in all && rules[id] == all[id]
    ensures forall id | id in all && id !in rules :: Matches(all[id].expr, d)
    ensures deleted == |all| - |rules|
  {
  }

  lemma ThinnedMore(all: map<RuleId, Rule>, rules: map<RuleId, Rule>, deleted: nat, d: Data, id: RuleId)
    requires Thinned(all, rules, deleted, d) && id in rules && Matches(rules[id].expr, d) && |rules - {id}| == |rules| - 1
    ensures Thinned(all, rules - {id}, deleted + 1, d)
  {
    hide Matches;
  }

  lemma ThinnedOut(all: map<RuleId, Rule>, rules: map<RuleId, Rule>, deleted: nat, d: Data)
    requires Thinned(all, rules, deleted, d) && forall id | id in rules :: !Matches(rules[id].expr, d)
    ensures rules == map id | id in all && !Matches(all[id].expr, d) :: all[id]
  {
    hide Matches;
  }

  lemma CardinalityMinus(rules: map<RuleId, Rule>, id: RuleId)
    requires id in rules
    ensures |rules - {id}| == |rules| - 1
  {
    assert (rules - {id}).Keys == rules.Keys - {id};
    assert |rules - {id}| == |(rules - {id}).Keys| && |rules| == |rules.Keys|;
  }

  lemma NothingLeft(root: Cnode, rules: map<RuleId, Rule>, cs: seq<Cursor>, d: Data, after: seq<Cursor>)
    requires Holds(root, rules) && IdsInRange(rules) && InSync(cs, root, d) && Delivers(cs, d, None, after)
    ensures forall id | id in rules :: !Matches(rules[id].expr, d)
  {
    hide Pending, Bag, Advanced;
    forall id | id in rules
      ensures !Matches(rules[id].expr, d)
    {
      assert Synced(cs, root, d, rules[id]);
      assert !Due(cs, d, rules[id]);
    }
  }

  // ----- Dispatch -----

  /** A matching rule has fired, is at hand or is pending, as often as it is in the tree. */
  ghost predicate Tallied(fired: seq<Rule>, m: Option<Rule>, cs: seq<Cursor>, root: Cnode, d: Data, r: Rule) {
    Matches(r.expr, d) ==>
      multiset(fired)[r] + (if m == Some(r) then 1 else 0) + Pending(cs, r) == Bag(root)[r]
  }

  /** The state between two firings: what has fired matches and has the lowest priority
      number, and the rule at hand is a lowest one of what is left. */
  ghost predicate Firing(fired: seq<Rule>, m: Option<Rule>, cs: seq<Cursor>, root: Cnode, d: Data, top: nat) {
    && (forall r :: Tallied(fired, m, cs, root, d, r))
    && (forall r | r in fired :: r.priority == top && Matches(r.expr, d))
    && (m.None? ==> forall r :: !Due(cs, d, r))
    && (m.Some? ==> Fires(m.value.expr, d) && top <= m.value.priority && forall r | Due(cs, d, r) :: m.value.priority <= r.priority)
  }

  lemma NoTop(rules: map<RuleId, Rule>, d: Data)
    requires forall id | id in rules :: !Matches(rules[id].expr, d)
    ensures forall r :: !IsTop(rules, d, r)
  {
  }

  lemma FiringStart(cs: seq<Cursor>, root: Cnode, rules: map<RuleId, Rule>, d: Data, m: Rule, after: seq<Cursor>)
    requires Holds(root, rules) && InSync(cs, root, d) && Delivers(cs, d, Some(m), after) && IdsInRange(rules)
    ensures Firing([], Some(m), after, root, d, m.priority)
    ensures forall id | id in rules && Matches(rules[id].expr, d) :: m.priority <= rules[id].priority
  {
    hide Pending, Bag, Advanced;
    forall r
      ensures Tallied([], Some(m), after, root, d, r) && (Due(after, d, r) ==> m.priority <= r.priority)
    {
      assert Synced(cs, root, d, r);
      assert Accounts(cs, d, Some(m), after, r);
      assert Due(after, d, r) ==> Due(cs, d, r);
    }
    forall id | id in rules && Matches(rules[id].expr, d)
      ensures m.priority <= rules[id].priority
    {
      assert Synced(cs, root, d, rules[id]);
      assert Due(cs, d, rules[id]);
    }
  }

  lemma FiringTurn(fired: seq<Rule>, m: Rule, cs: seq<Cursor>, root: Cnode, d: Data, m': Option<Rule>, after: seq<Cursor>)
    requires Firing(fired, Some(m), cs, root, d, m.priority) && Delivers(cs, d, m', after)
    ensures Firing(fired + [m], m', after, root, d, m.priority)
  {
    hide Pending, Bag, Advanced;
    forall r
      ensures Tallied(fired + [m], m', after, root, d, r)
      ensures Due(after, d, r) ==> Due(cs, d, r)
    {
      assert Tallied(fired, Some(m), cs, root, d, r);
      assert Accounts(cs, d, m', after, r);
    }
  }

  /** When the rule at hand no longer has the lowest priority number, exactly the top rules
      have fired. */
  lemma FiringEnd(fired: seq<Rule>, m: Option<Rule>, cs: seq<Cursor>, root: Cnode, rules: map<RuleId, Rule>, d: Data, top: nat, r: Rule)
    requires Holds(root, rules) && IdsInRange(rules) && Firing(fired, m, cs, root, d, top)
    requires fired != [] && (m.Some? ==> m.value.priority != top)
    requires forall id | id in rules && Matches(rules[id].expr, d) :: top <= rules[id].priority
    ensures multiset(fired)[r] == if IsTop(rules, d, r) then 1 else 0
  {
    hide Pending, Bag, Advanced;
    assert Tallied(fired, m, cs, root, d, r);
    assert Tallied(fired, m, cs, root, d, fired[0]);
    assert fired[0] in multiset(fired);
    if IsTop(rules, d, r) {
      assert rules[fired[0].id] == fired[0];
      assert r.priority == top;
      assert !Due(cs, d, r);
    }
  }

  /** The rule at hand has fired too, and that is all there will be. */
  lemma FiringSome(fired: seq<Rule>, m: Rule, cs: seq<Cursor>, root: Cnode, rules: map<RuleId, Rule>, d: Data)
    requires Holds(root, rules) && Firing(fired, Some(m), cs, root, d, m.priority)
    requires forall id | id in rules && Matches(rules[id].expr, d) :: m.priority <= rules[id].priority
    ensures forall r :: multiset(fired + [m])[r] <= if IsTop(rules, d, r) then 1 else 0
  {
    hide Pending, Bag, Matches;
    forall r
      ensures multiset(fired + [m])[r] <= if IsTop(rules, d, r) then 1 else 0
    {
      assert Tallied(fired, Some(m), cs, root, d, r);
      assert r in multiset(fired) ==> r in fired;
    }
  }

  /** The state of the dispatch loop: every rule that fails the assertion and was met is
      still pending, and comes no earlier than the rule at hand. */
  ghost predicate Dispatching(fired: seq<Rule>, m: Option<Rule>, cs: seq<Cursor>, root: Cnode, rules: map<RuleId, Rule>, d: Data, top: nat) {
    && Firing(fired, m, cs, root, d, top) && Kept(cs, root, d)
    && (fired == [] ==> m.Some? && m.value.priority == top)
    && (forall id | id in rules && Matches(rules[id].expr, d) :: top <= rules[id].priority)
    && (forall r: Rule | !Testable(r.expr, d) && r in Visited(root, d) :: m.Some? && m.value.priority <= r.priority)
  }

  lemma DispatchStart(cs: seq<Cursor>, root: Cnode, rules: map<RuleId, Rule>, d: Data, m: Rule, after: seq<Cursor>)
    requires Holds(root, rules) && IdsInRange(rules) && InSync(cs, root, d) && Kept(cs, root, d)
    requires Delivers(cs, d, Some(m), after)
    ensures Dispatching([], Some(m), after, root, rules, d, m.priority)
  {
    hide Holds, IdsInRange, InSync, Kept, Delivers, Firing, Matches, Testable, Visited;
    FiringStart(cs, root, rules, d, m, after);
    DeliversKeeps(cs, root, d, Some(m), after);
  }

  lemma DispatchTurn(fired: seq<Rule>, m: Rule, cs: seq<Cursor>, root: Cnode, rules: map<RuleId, Rule>, d: Data, m': Option<Rule>, after: seq<Cursor>)
    requires Dispatching(fired, Some(m), cs, root, rules, d, m.priority) && Delivers(cs, d, m', after)
    ensures Dispatching(fired + [m], m', after, root, rules, d, m.priority)
  {
    hide Kept, Delivers, Firing, Matches, Testable, Visited;
    FiringTurn(fired, m, cs, root, d, m', after);
    DeliversKeeps(cs, root, d, m', after);
  }

  /** The search for the next rule aborts after the rule at hand has fired. */
  lemma DispatchStops(fired: seq<Rule>, m: Rule, cs: seq<Cursor>, root: Cnode, rules: map<RuleId, Rule>, d: Data)
    requires Holds(root, rules) && Dispatching(fired, Some(m), cs, root, rules, d, m.priority) && Poisoned(cs, d)
    ensures Hazard(root, d)
    ensures forall r :: multiset(fired + [m])[r] <= if IsTop(rules, d, r) then 1 else 0
  {
    hide Holds, Kept, Firing, Matches, Testable, Visited, Poisoned, Hazard, IsTop;
    PoisonedIsHazard(cs, root, d);
    FiringSome(fired, m, cs, root, rules, d);
  }

  /** A rule that fires, but is not a top one, comes before `r` or together with it. */
  ghost predicate Shielded(rules: map<RuleId, Rule>, d: Data, top: nat, r: Rule) {
    exists id :: id in rules && Fires(rules[id].expr, d) && top < rules[id].priority <= r.priority
  }

  /** The rule at hand is in the classifier. */
  lemma AtHandIsHeld(fired: seq<Rule>, m: Rule, cs: seq<Cursor>, root: Cnode, rules: map<RuleId, Rule>, d: Data, top: nat)
    requires Holds(root, rules) && Firing(fired, Some(m), cs, root, d, top)
    ensures m.id in rules && rules[m.id] == m && Fires(m.expr, d) && top <= m.priority
  {
    hide Pending, Bag, Matches, Testable;
    assert Tallied(fired, Some(m), cs, root, d, m);
  }

  /** The rule at hand is no longer a top one. */
  lemma DispatchEnds(fired: seq<Rule>, m: Option<Rule>, cs: seq<Cursor>, root: Cnode, rules: map<RuleId, Rule>, d: Data, top: nat)
    requires Holds(root, rules) && IdsInRange(rules) && Dispatching(fired, m, cs, root, rules, d, top)
    requires m.Some? ==> m.value.priority != top
    ensures forall r :: multiset(fired)[r] == if IsTop(rules, d, r) then 1 else 0
    ensures forall r: Rule | r in Visited(root, d) && !Testable(r.expr, d) ::
              fired != [] && Shielded(rules, d, fired[0].priority, r)
  {
    hide Holds, IdsInRange, Kept, Matches, Testable, Visited, IsTop, Tallied, Due;
    assert fired[0] in fired;
    if m.Some? {
      AtHandIsHeld(fired, m.value, cs, root, rules, d, top);
    }
    forall r
      ensures multiset(fired)[r] == if IsTop(rules, d, r) then 1 else 0
    {
      FiringEnd(fired, m, cs, root, rules, d, top, r);
    }
  }

  lemma HazardIf(root: Cnode, d: Data)
    ensures !Answerable(root, d) ==> Hazard(root, d)
    ensures Answerable(root, d) && (forall r: Rule | !Testable(r.expr, d) :: r !in Visited(root, d)) ==> !Hazard(root, d)
  {
  }

  class Classifier {
    var root: Cnode
    var rules: map<RuleId, Rule>
    var node: map<RuleId, Location>
    var idCounter: nat

    ghost predicate Valid()
      reads this
    {
      && Placed(root) && Holds(root, rules) && IdsInRange(rules) && Pointed(root, rules, node)
      && Sifted(root, {}) && 1 <= idCounter <= MAX_ID
    }

    constructor ()
      ensures Valid() && rules == map[] && idCounter == 1 && root == Leaf(0, [])
    {
      root, rules, node, idCounter := Leaf(0, []), map[], map[], 1;
    }

    /** The first identifier from the counter on, wrapping from 2^32-1 to 1, that no rule
        has; none if and only if all are taken. */
    method GetId() returns (id: Option<RuleId>)
      requires Valid()
      modifies this`idCounter
      ensures Valid()
      ensures id.None? <==> forall j | 1 <= j <= MAX_ID :: j in rules
      ensures id.Some? ==>
                && 1 <= id.value <= MAX_ID && id.value !in rules
                && (forall j | 1 <= j <= MAX_ID && Tried(old(idCounter), j, id.value) :: j in rules)
                && idCounter == if id.value == MAX_ID then 1 else id.value
    {
      hide Placed, Holds, Pointed, IdsInRange, Sifted;
      var looped := false;
      ghost var start := idCounter;
      while idCounter in rules
        invariant 1 <= idCounter <= MAX_ID
        invariant !looped ==> forall j | start <= j < idCounter :: j in rules
        invariant looped ==> (forall j | start <= j <= MAX_ID :: j in rules) && forall j | 1 <= j < idCounter :: j in rules
        decreases !looped, MAX_ID - idCounter
      {
        if idCounter == MAX_ID {
          if looped {
            return None;
          }
          looped := true;
          idCounter := 1;
        } else {
          idCounter := idCounter + 1;
        }
      }
      id := Some(idCounter);
      if idCounter == MAX_ID {
        idCounter := 1;
      }
    }

    /** The new rule has an identifier of its own, and every other rule stays. */
    method AddRule(priority: nat, expr: Expr, action: int) returns (id: Option<RuleId>)
      requires Valid()
      modifies this
      ensures Valid()
      ensures id.None? <==> forall j | 1 <= j <= MAX_ID :: j in old(rules)
      ensures id.None? ==> rules == old(rules)
      ensures id.Some? ==>
                && id.value !in old(rules)
                && rules == old(rules)[id.value := Rule(id.value, priority, expr, action)]
    {
      hide Holds, Placed, Bag, Pointed, Sifted;
      id := GetId();
      if id.None? {
        return;
      }
      var rule := Rule(id.value, priority, expr, action);
      HoldsAdd(root, rules, rule);
      AddRulePlaced(root, rule, {});
      AddRuleSifted(root, rule, {});
      PointedAdd(root, rules, node, rule);
      rules, node := rules[id.value := rule], node[id.value := Landing(root, rule, {})];
      root := CnodeTree.AddRule(root, rule, {});
    }

    /** The rule is removed from the list of the node that its pointer leads to, and with that
        from the tree. */
    method DeleteRule(id: RuleId) returns (found: bool)
      requires Valid()
      modifies this
      ensures Valid() && found == (id in old(rules))
      ensures rules == old(rules) - {id}
      ensures root == if found then Remove(old(root), id) else old(root)
    {
      hide Placed, Holds, Pointed, NodeAt, RemoveAt, Remove, Sifted;
      if id !in rules {
        return false;
      }
      DeletedThroughPointer(root, rules, node, id);
      RemoveSifted(root, id, {});
      root := RemoveAt(root, node[id], id);
      rules, node := rules - {id}, node - {id};
      found := true;
    }

    /** Restructures the tree; the rules stay as they are, and their pointers follow. */
    method BuildTree(choose: Heuristic)
      requires Valid()
      modifies this`root, this`node
      ensures Valid() && root == Build(old(root), {}, choose)
    {
      hide Placed, Bag, Pointed, Sifted;
      BuildCorrect(root, {}, choose);
      BuildSifted(root, {}, choose);
      root := Build(root, {}, choose);
      PointedWalk(root, rules);
      node := SetNodePointers(root, [], map[]);
    }

    /** Adds to the result every list that may hold rules for its data.  It aborts exactly if
        it comes to a node that asks a packet for its destination access point. */
    method GetRules(result: CnodeResult) returns (aborted: bool)
      requires Valid() && result.Valid()
      modifies result
      ensures result.Valid() && result.data == old(result.data)
      ensures aborted <==> !Answerable(root, result.data)
      ensures !aborted ==> CollectedAll(old(result.InUse()), result.InUse(), root, [], result.data)
      ensures forall c | c in result.InUse() :: c in old(result.InUse()) || Onto(root, c.rest)
    {
      hide CollectedAll, Visited, VisitedAll, Answerable, AnswerableAll, Holds, Pointed, IdsInRange, Sifted;
      CollectedStart(result.InUse(), root, result.data);
      AnswerableOne(root, result.data);
      var toTraverse := [root];
      aborted := false;
      while toTraverse != [] && !aborted
        invariant result.Valid() && result.data == old(result.data)
        invariant !aborted ==> CollectedAll(old(result.InUse()), result.InUse(), root, toTraverse, result.data)
        invariant forall m | m in toTraverse :: Has(root, m)
        invariant forall c | c in result.InUse() :: c in old(result.InUse()) || Onto(root, c.rest)
        invariant if aborted then !Answerable(root, result.data)
                  else Answerable(root, result.data) <==> AnswerableAll(toTraverse, result.data)
        decreases !aborted, SizeOfAll(toTraverse)
      {
        var n := |toTraverse| - 1;
        var current, stack := toTraverse[n], toTraverse[..n];
        assert toTraverse == stack + [current];
        CollectedTurn(old(result.InUse()), result.InUse(), root, stack, current, result.data);
        AnswerableTurn(stack, current, result.data);
        HasPlaced(root, current);
        HasOnto(root, current);
        BelowAllHas(root, current, stack, result.data);
        aborted, toTraverse := Traverse(current, result, stack);
      }
      AnswerableOne(root, result.data);
    }

    /** Visits one node: its list goes to the result, and the nodes below it that may hold
        rules for the data go on the stack. */
    method Traverse(n: Cnode, result: CnodeResult, stack: seq<Cnode>) returns (aborted: bool, grown: seq<Cnode>)
      requires result.Valid() && Sorted(n.rules)
      modifies result
      ensures result.Valid() && result.data == old(result.data)
      ensures result.InUse() == Pushed(old(result.InUse()), n.rules)
      ensures aborted <==> n.Split? && !Askable(result.data, n.field)
      ensures grown == if aborted then stack else Grown(stack, n, result.data)
    {
      result.Push(n.rules);
      if n.Leaf? {
        return false, stack;
      }
      if !Askable(result.data, n.field) {
        return true, stack;
      }
      var more := NodesBelow(n, result.data);
      return false, stack + more;
    }

    /** The child for the rules that do not constrain the split field, and the children for
        the keys the data has in it; all children if it has none. */
    method NodesBelow(n: Cnode, d: Data) returns (ms: seq<Cnode>)
      requires n.Split?
      ensures ms == Below(n, d)
    {
      ms := [];
      if n.any.Some? {
        ms := [n.any.value];
      }
      var keys := Keys(d, n.field);
      var idx := 0;
      ghost var base := ms;
      while idx < |keys|
        invariant idx <= |keys| <= 1
        invariant ms == if idx == 0 then base else base + Pick(n.children, keys[0])
      {
        ms := ms + Pick(n.children, keys[idx]);
        idx := idx + 1;
      }
      if idx == 0 {
        ms := ms + n.children;
      }
    }

    /** Deletes exactly the rules that match, and tells how many there were.  It aborts
        exactly if the traversal meets a rule or a node that fails an assertion, and has
        then deleted only rules that match. */
    method DeleteRules(data: Data) returns (aborted: bool, deleted: nat)
      requires Valid()
      modifies this
      ensures Valid()
      ensures aborted <==> Hazard(old(root), data)
      ensures forall id | id in rules :: id in old(rules) && rules[id] == old(rules)[id]
      ensures forall id | id in old(rules) && id !in rules :: Matches(old(rules)[id].expr, data)
      ensures !aborted ==>
                rules == map id | id in old(rules) && !Matches(old(rules)[id].expr, data) :: old(rules)[id]
      ensures deleted == |old(rules)| - |rules|
    {
      hide Holds, Placed, Bag, CollectedAll, Following, Delivers, Pointed, Hazard, Poisoned, IdsInRange, Answerable, Matches, Remove, Thinned, Sifted;
      deleted := 0;
      ThinnedNone(rules, data);
      var res := new CnodeResult(data);
      aborted := GetRules(res);
      if aborted {
        HazardIf(root, data);
        ThinnedIs(old(rules), rules, deleted, data);
        return;
      }
      FollowingStart(res.InUse(), root, data);
      ghost var before := res.InUse();
      var r;
      aborted, r := res.Next();
      while !aborted && r.Some?
        invariant Valid() && res.Valid() && res.data == data && fresh(res)
        invariant Following(before, root, old(root), data)
        invariant aborted ==> Poisoned(before, data)
        invariant !aborted ==> Delivers(before, data, r, res.InUse())
        invariant Thinned(old(rules), rules, deleted, data)
        decreases !aborted, |rules|
      {
        DeletedFollowing(root, old(root), rules, before, data, r.value, res.InUse());
        ThinnedMore(old(rules), rules, deleted, data, r.value.id);
        var found := DeleteRule(r.value.id);
        if found {
          deleted := deleted + 1;
        }
        before := res.InUse();
        aborted, r := res.Next();
      }
      FollowingEnds(root, old(root), rules, before, data);
      ThinnedIs(old(rules), rules, deleted, data);
      if !aborted {
        ThinnedOut(old(rules), rules, deleted, data);
      }
    }

    /** Runs the actions of exactly the top rules for the packet, each once, and leaves the
        result empty for the next packet.  If the traversal meets a rule or a node that fails
        an assertion it may abort, after the actions of some of the top rules.  It does, unless
        all are rules and some rule that fires, but is not a top one, comes no later than any
        of them. */
    method HandlePacketIn(flow: Data, result: CnodeResult) returns (aborted: bool, fired: seq<Rule>)
      requires Valid() && result.Valid() && result.numLists == 0
      modifies result
      ensures result.Valid() && (!aborted ==> result.numLists == 0)
      ensures aborted ==> Hazard(root, flow)
      ensures forall r :: multiset(fired)[r] <= if IsTop(rules, flow, r) then 1 else 0
      ensures !aborted ==> forall r :: multiset(fired)[r] == if IsTop(rules, flow, r) then 1 else 0
      ensures !aborted ==>
                && Answerable(root, flow)
                && forall r: Rule | r in Visited(root, flow) && !Testable(r.expr, flow) ::
                     fired != [] && Shielded(rules, flow, fired[0].priority, r)
    {
      hide Holds, Placed, Bag, CollectedAll, InSync, Delivers, Dispatching, IsTop, Pointed, Kept, Hazard, Poisoned, IdsInRange, Answerable, Visited, Testable, Matches, Left, Shielded, Sifted;
      fired := [];
      result.SetData(flow);
      aborted := GetRules(result);
      if aborted {
        HazardIf(root, flow);
        return;
      }
      CollectedInSync(result.InUse(), root, flow);
      CollectedKept(result.InUse(), root, flow);
      ghost var before := result.InUse();
      var m;
      aborted, m := result.Next();
      if aborted {
        PoisonedIsHazard(before, root, flow);
        return;
      }
      if m.None? {
        DeliversKeeps(before, root, flow, m, result.InUse());
        NothingLeft(root, rules, before, flow, result.InUse());
        NoTop(rules, flow);
        result.Clear();
        return;
      }
      DispatchStart(before, root, rules, flow, m.value, result.InUse());
      var top := m.value.priority;
      while m.Some? && m.value.priority == top
        invariant result.Valid() && result.data == flow
        invariant Dispatching(fired, m, result.InUse(), root, rules, flow, top)
        decreases Left(result.InUse()), m.Some?
      {
        ghost var earlier := fired;
        fired := fired + [m.value];
        before := result.InUse();
        var next;
        aborted, next := result.Next();
        if aborted {
          DispatchStops(earlier, m.value, before, root, rules, flow);
          return;
        }
        DispatchTurn(earlier, m.value, before, root, rules, flow, next, result.InUse());
        m := next;
      }
      DispatchEnds(fired, m, result.InUse(), root, rules, flow, top);
      result.Clear();
    }
  }
}
