/** The result of a classification: a lazy merge, by priority, of the rule lists that a
traversal has reached. */
module CnodeResult {
  import opened Wrappers
  import opened PacketExpr
  import opened CnodeTree

  /** A position in a rule list, as the rules from there to the end of the list.  `isMatch`
      remembers that the first of them has been found to match. */
  datatype Cursor = Cursor(rest: seq<Rule>, isMatch: bool)

  /** A rule that may be delivered: it passes the assertion and the test. */
  predicate Fires(e: Expr, d: Data) {
    Testable(e, d) && Matches(e, d)
  }

  /** A rule that the merge cannot pass: testing it delivers it or fails the assertion. */
  predicate Concerns(e: Expr, d: Data) {
    !Testable(e, d) || Matches(e, d)
  }

  /** How often the cursors have still to come to `r`. */
  ghost function Pending(cs: seq<Cursor>, r: Rule): nat {
    if cs == [] then 0 else Pending(cs[..|cs| - 1], r) + multiset(cs[|cs| - 1].rest)[r]
  }

  function Left(cs: seq<Cursor>): nat {
    if cs == [] then 0 else Left(cs[..|cs| - 1]) + |cs[|cs| - 1].rest|
  }

  ghost predicate Good(c: Cursor, d: Data) {
    c.rest != [] && Sorted(c.rest) && (c.isMatch ==> Fires(c.rest[0].expr, d))
  }

  ghost predicate AllGood(cs: seq<Cursor>, d: Data) {
    forall i | 0 <= i < |cs| :: Good(cs[i], d)
  }

  lemma {:induction false} PendingUpdate(cs: seq<Cursor>, i: nat, c: Cursor, r: Rule)
    requires i < |cs|
    ensures Pending(cs[i := c], r) == Pending(cs, r) - multiset(cs[i].rest)[r] + multiset(c.rest)[r]
    decreases |cs|
  {
    var n := |cs| - 1;
    if i < n {
      PendingUpdate(cs[..n], i, c, r);
      assert cs[i := c][..n] == cs[..n][i := c];
    } else {
      assert cs[i := c][..n] == cs[..n];
    }
  }

  lemma {:induction false} LeftUpdate(cs: seq<Cursor>, i: nat, c: Cursor)
    requires i < |cs|
    ensures Left(cs[i := c]) == Left(cs) - |cs[i].rest| + |c.rest|
    decreases |cs|
  {
    var n := |cs| - 1;
    if i < n {
      LeftUpdate(cs[..n], i, c);
      assert cs[i := c][..n] == cs[..n][i := c];
    } else {
      assert cs[i := c][..n] == cs[..n];
    }
  }

  lemma {:induction false} PendingMember(cs: seq<Cursor>, r: Rule)
    ensures Pending(cs, r) > 0 <==> exists i :: 0 <= i < |cs| && r in cs[i].rest
    decreases |cs|
  {
    if cs != [] {
      var n := |cs| - 1;
      PendingMember(cs[..n], r);
      if Pending(cs[..n], r) > 0 {
        var i :| 0 <= i < |cs[..n]| && r in cs[..n][i].rest;
        assert r in cs[i].rest;
      }
      if i :| 0 <= i < |cs| && r in cs[i].rest {
        assert i < n ==> r in cs[..n][i].rest;
      }
    }
  }

  /** The cursors after the first rule of the one at `i` has been passed.  A cursor that has
      come to the end of its list gives its slot to the last one. */
  function Passed(cs: seq<Cursor>, i: nat): seq<Cursor>
    requires i < |cs| && cs[i].rest != []
  {
    var n := |cs| - 1;
    if |cs[i].rest| > 1 then cs[i := Cursor(cs[i].rest[1..], false)]
    else cs[i := cs[n]][..n]
  }

  /** Passing one rule takes exactly that rule out of what is pending. */
  lemma {:induction false} PassedPending(cs: seq<Cursor>, i: nat, r: Rule)
    requires i < |cs| && cs[i].rest != []
    ensures Pending(Passed(cs, i), r) == Pending(cs, r) - (if r == cs[i].rest[0] then 1 else 0)
  {
    var q := cs[i].rest;
    assert q == [q[0]] + q[1..];
    if |q| > 1 {
      PendingUpdate(cs, i, Cursor(q[1..], false), r);
    } else {
      var last := cs[|cs| - 1];
      PendingUpdate(cs, i, last, r);
      assert cs[i := last][|cs| - 1] == last;
    }
  }

  lemma {:induction false} PassedLeft(cs: seq<Cursor>, i: nat)
    requires i < |cs| && cs[i].rest != []
    ensures Left(Passed(cs, i)) == Left(cs) - 1
  {
    if |cs[i].rest| > 1 {
      LeftUpdate(cs, i, Cursor(cs[i].rest[1..], false));
    } else {
      var n := |cs| - 1;
      var ds := cs[i := cs[n]];
      LeftUpdate(cs, i, cs[n]);
      assert ds[n] == cs[n] && |ds| == n + 1;
      assert Left(ds) == Left(ds[..n]) + |ds[n].rest|;
    }
  }

  lemma PassedGood(cs: seq<Cursor>, i: nat, d: Data)
    requires i < |cs| && AllGood(cs, d)
    ensures AllGood(Passed(cs, i), d)
  {
  }

  /** The position is on a list that was there before, at the same place or further on. */
  ghost predicate Ahead(q: seq<Rule>, before: seq<Cursor>) {
    exists j :: 0 <= j < |before| && IsSuffix(q, before[j].rest)
  }

  ghost predicate Advanced(cs: seq<Cursor>, before: seq<Cursor>) {
    forall c | c in cs :: Ahead(c.rest, before)
  }

  lemma PassedAdvanced(cs: seq<Cursor>, i: nat, before: seq<Cursor>)
    requires i < |cs| && cs[i].rest != [] && Advanced(cs, before)
    ensures Advanced(Passed(cs, i), before)
  {
    var q := cs[i].rest;
    if |q| > 1 {
      assert Ahead(q, before);
      var j :| 0 <= j < |before| && IsSuffix(q, before[j].rest);
      assert IsSuffix(q[1..], before[j].rest);
    }
  }

  /** `r` is no more often pending than before, and as often if it concerns the data and is
      not `m`; `m` is pending once less. */
  ghost predicate Accounts(before: seq<Cursor>, d: Data, m: Option<Rule>, after: seq<Cursor>, r: Rule) {
    && Pending(after, r) <= Pending(before, r)
    && (Concerns(r.expr, d) ==> Pending(after, r) == Pending(before, r) - (if m == Some(r) then 1 else 0))
  }

  /** The merge has only passed rules that passed the assertion and do not match. */
  ghost predicate Skipped(cs: seq<Cursor>, before: seq<Cursor>, d: Data) {
    Advanced(cs, before) && forall r :: Accounts(before, d, None, cs, r)
  }

  lemma SkippedNone(cs: seq<Cursor>, d: Data)
    ensures Skipped(cs, cs, d)
  {
    forall c | c in cs
      ensures Ahead(c.rest, cs)
    {
      var i :| 0 <= i < |cs| && cs[i] == c;
      assert IsSuffix(c.rest, cs[i].rest);
    }
  }

  lemma SkippedPass(cs: seq<Cursor>, i: nat, before: seq<Cursor>, d: Data)
    requires i < |cs| && cs[i].rest != [] && !Concerns(cs[i].rest[0].expr, d) && Skipped(cs, before, d)
    ensures Skipped(Passed(cs, i), before, d)
  {
    PassedAdvanced(cs, i, before);
    forall r
      ensures Accounts(before, d, None, Passed(cs, i), r)
    {
      PassedPending(cs, i, r);
      assert Accounts(before, d, None, cs, r);
    }
  }

  lemma SkippedFlag(cs: seq<Cursor>, i: nat, before: seq<Cursor>, d: Data, c: Cursor)
    requires i < |cs| && c.rest == cs[i].rest && Skipped(cs, before, d)
    ensures Skipped(cs[i := c], before, d)
  {
    var ds := cs[i := c];
    forall r
      ensures Accounts(before, d, None, ds, r)
    {
      PendingUpdate(cs, i, c, r);
      assert Accounts(before, d, None, cs, r);
    }
  }

  /** No rule on sorted lists comes before all of their first ones. */
  lemma HeadsFirst(cs: seq<Cursor>, d: Data, p: nat, r: Rule)
    requires AllGood(cs, d) && Pending(cs, r) > 0
    requires forall j | 0 <= j < |cs| :: cs[j].rest != [] && p <= cs[j].rest[0].priority
    ensures p <= r.priority
  {
    PendingMember(cs, r);
    var i :| 0 <= i < |cs| && r in cs[i].rest;
    var k :| 0 <= k < |cs[i].rest| && cs[i].rest[k] == r;
    assert Good(cs[i], d);
  }

  /** Of the first `i` cursors, the one at `k` has the first rule of lowest priority number,
      and that rule, `m`, fires; there is none only as long as no cursor has been seen. */
  ghost predicate Best(cs: seq<Cursor>, d: Data, i: nat, m: Option<Rule>, k: nat) {
    && i <= |cs| && (forall j | 0 <= j < |cs| :: cs[j].rest != [])
    && (m.None? ==> i == 0)
    && (m.Some? ==>
          && k < i && cs[k].rest[0] == m.value && Fires(m.value.expr, d)
          && forall j | 0 <= j < i :: m.value.priority <= cs[j].rest[0].priority)
  }

  lemma BestFlag(cs: seq<Cursor>, d: Data, i: nat, m: Option<Rule>, k: nat)
    requires Best(cs, d, i, m, k) && i < |cs| && Fires(cs[i].rest[0].expr, d)
    requires m.Some? ==> cs[i].rest[0].priority < m.value.priority
    ensures Best(cs[i := Cursor(cs[i].rest, true)], d, i + 1, Some(cs[i].rest[0]), i)
  {
  }

  lemma BestPass(cs: seq<Cursor>, d: Data, i: nat, m: Option<Rule>, k: nat)
    requires Best(cs, d, i, m, k) && i < |cs|
    ensures Best(Passed(cs, i), d, i, m, k)
  {
  }

  ghost predicate Due(cs: seq<Cursor>, d: Data, r: Rule) {
    Concerns(r.expr, d) && Pending(cs, r) > 0
  }

  /** What `Next` delivers: the due rule of lowest priority number, which fires, and only that. */
  ghost predicate Delivers(before: seq<Cursor>, d: Data, m: Option<Rule>, after: seq<Cursor>) {
    && (m.None? <==> forall r :: !Due(before, d, r))
    && (m.Some? ==> Due(before, d, m.value) && Fires(m.value.expr, d) && forall r | Due(before, d, r) :: m.value.priority <= r.priority)
    && (forall r :: Accounts(before, d, m, after, r))
    && Advanced(after, before)
  }

  lemma DeliversMatch(before: seq<Cursor>, cs: seq<Cursor>, d: Data, k: nat)
    requires k < |cs| && cs[k].rest != []
    requires Skipped(cs, before, d) && AllGood(cs, d) && Best(cs, d, |cs|, Some(cs[k].rest[0]), k)
    ensures Delivers(before, d, Some(cs[k].rest[0]), Passed(cs, k))
  {
    hide Pending, Advanced;
    var m := cs[k].rest[0];
    PendingMember(cs, m);
    assert m in cs[k].rest;
    assert Accounts(before, d, None, cs, m);
    assert Due(before, d, m);
    forall r | Due(before, d, r)
      ensures m.priority <= r.priority
    {
      assert Accounts(before, d, None, cs, r);
      HeadsFirst(cs, d, m.priority, r);
    }
    PassedAdvanced(cs, k, before);
    forall r
      ensures Accounts(before, d, Some(m), Passed(cs, k), r)
    {
      PassedPending(cs, k, r);
      assert Accounts(before, d, None, cs, r);
    }
  }

  lemma DeliversNone(before: seq<Cursor>, d: Data)
    requires Skipped([], before, d)
    ensures Delivers(before, d, None, [])
  {
    forall r
      ensures !Due(before, d, r)
    {
      assert Accounts(before, d, None, [], r);
    }
  }

  /** What a search comes to: a rule or none, with the cursors after it, or a rule that fails
      the assertion. */
  datatype Finding = Found(rule: Option<Rule>, after: seq<Cursor>) | Aborted

  predicate Live(cs: seq<Cursor>) {
    forall j | 0 <= j < |cs| :: cs[j].rest != []
  }

  /** The search for the next rule, with the cursors before `i` looked at and the best rule
      so far, `m`, at `k`. */
  function Search(cs: seq<Cursor>, d: Data, i: nat, m: Option<Rule>, k: nat): Finding
    requires i <= |cs| && Live(cs) && (m.Some? ==> k < |cs| && k < i)
    decreases Left(cs), |cs| - i
  {
    if i == |cs| then Found(m, if m.Some? then Passed(cs, k) else cs)
    else
      var rule := cs[i].rest[0];
      if m.Some? && m.value.priority <= rule.priority then Search(cs, d, i + 1, m, k)
      else if !cs[i].isMatch && !Testable(rule.expr, d) then Aborted
      else if cs[i].isMatch || Matches(rule.expr, d) then
        LeftUpdate(cs, i, Cursor(cs[i].rest, true));
        Search(cs[i := Cursor(cs[i].rest, true)], d, i + 1, Some(rule), i)
      else
        PassedLeft(cs, i);
        Search(Passed(cs, i), d, i, m, k)
  }

  lemma {:induction false} SearchDelivers(before: seq<Cursor>, cs: seq<Cursor>, d: Data, i: nat, m: Option<Rule>, k: nat)
    requires Skipped(cs, before, d) && AllGood(cs, d) && Best(cs, d, i, m, k)
    ensures var s := Search(cs, d, i, m, k);
      s.Found? ==> Delivers(before, d, s.rule, s.after) && AllGood(s.after, d)
    decreases Left(cs), |cs| - i
  {
    hide Delivers, Skipped, Testable, Matches;
    if i == |cs| {
      if m.Some? {
        DeliversMatch(before, cs, d, k);
        PassedGood(cs, k, d);
      } else {
        assert cs == [];
        DeliversNone(before, d);
      }
    } else {
      var rule := cs[i].rest[0];
      assert Good(cs[i], d);
      if m.Some? && m.value.priority <= rule.priority {
        SearchDelivers(before, cs, d, i + 1, m, k);
      } else if !cs[i].isMatch && !Testable(rule.expr, d) {
      } else if cs[i].isMatch || Matches(rule.expr, d) {
        var c := Cursor(cs[i].rest, true);
        LeftUpdate(cs, i, c);
        SkippedFlag(cs, i, before, d, c);
        BestFlag(cs, d, i, m, k);
        SearchDelivers(before, cs[i := c], d, i + 1, Some(rule), i);
      } else {
        PassedLeft(cs, i);
        PassedGood(cs, i, d);
        SkippedPass(cs, i, before, d);
        BestPass(cs, d, i, m, k);
        SearchDelivers(before, Passed(cs, i), d, i, m, k);
      }
    }
  }

  /** A search aborts only at a pending rule that fails the assertion. */
  lemma {:induction false} SearchAborts(cs: seq<Cursor>, d: Data, i: nat, m: Option<Rule>, k: nat) returns (r: Rule)
    requires i <= |cs| && Live(cs) && (m.Some? ==> k < |cs| && k < i)
    requires Search(cs, d, i, m, k).Aborted?
    ensures !Testable(r.expr, d) && Pending(cs, r) > 0
    decreases Left(cs), |cs| - i
  {
    hide Pending, Testable, Matches;
    r := cs[i].rest[0];
    if m.Some? && m.value.priority <= r.priority {
      r := SearchAborts(cs, d, i + 1, m, k);
    } else if !cs[i].isMatch && !Testable(r.expr, d) {
      PendingMember(cs, r);
    } else if cs[i].isMatch || Matches(r.expr, d) {
      var c, rule := Cursor(cs[i].rest, true), r;
      LeftUpdate(cs, i, c);
      r := SearchAborts(cs[i := c], d, i + 1, Some(rule), i);
      PendingUpdate(cs, i, c, r);
    } else {
      PassedLeft(cs, i);
      r := SearchAborts(Passed(cs, i), d, i, m, k);
      PassedPending(cs, i, r);
    }
  }

  /** The smallest such search: one rule, on a field that packets do not have. */
  lemma AbortExample(v: Value, h: map<Field, Value>)
    ensures var r := Rule(1, 0, map[AP_DST := v], 0);
      Search([Cursor([r], false)], Flow(h), 0, None, 0).Aborted?
  {
    UnsupportedExample(v, h);
  }

  // ----- Until nothing is left -----

  lemma {:induction false} SearchLeft(cs: seq<Cursor>, d: Data, i: nat, m: Option<Rule>, k: nat)
    requires i <= |cs| && Live(cs) && (m.Some? ==> k < |cs| && k < i)
    ensures var s := Search(cs, d, i, m, k);
      s.Found? ==> Live(s.after) && Left(s.after) <= Left(cs) && (s.rule.Some? ==> Left(s.after) < Left(cs))
    decreases Left(cs), |cs| - i
  {
    hide Left, Testable, Matches;
    if i == |cs| {
      if m.Some? {
        PassedLeft(cs, k);
      }
    } else {
      var rule := cs[i].rest[0];
      if m.Some? && m.value.priority <= rule.priority {
        SearchLeft(cs, d, i + 1, m, k);
      } else if !cs[i].isMatch && !Testable(rule.expr, d) {
      } else if cs[i].isMatch || Matches(rule.expr, d) {
        LeftUpdate(cs, i, Cursor(cs[i].rest, true));
        SearchLeft(cs[i := Cursor(cs[i].rest, true)], d, i + 1, Some(rule), i);
      } else {
        PassedLeft(cs, i);
        SearchLeft(Passed(cs, i), d, i, m, k);
      }
    }
  }

  /** All that repeated searches deliver, and whether the last of them aborts. */
  datatype Drain = Drain(rules: seq<Rule>, aborted: bool)

  function Drained(cs: seq<Cursor>, d: Data): Drain
    requires Live(cs)
    decreases Left(cs)
  {
    SearchLeft(cs, d, 0, None, 0);
    match Search(cs, d, 0, None, 0)
    case Aborted => Drain([], true)
    case Found(None, _) => Drain([], false)
    case Found(Some(r), after) =>
      var rest := Drained(after, d);
      Drain([r] + rest.rules, rest.aborted)
  }

  /** Some pending rule fails the assertion. */
  ghost predicate Poisoned(cs: seq<Cursor>, d: Data) {
    exists r :: Pending(cs, r) > 0 && !Testable(r.expr, d)
  }

  /** The lazy merge is a filter and a sort: repeated searches deliver, in order of priority,
      every pending rule that matches, each as often as it is pending, and no other, unless
      they abort, which they do exactly if some pending rule fails the assertion. */
  lemma {:induction false} DrainedIsFilterSort(cs: seq<Cursor>, d: Data)
    requires AllGood(cs, d)
    ensures Live(cs)
    ensures var q := Drained(cs, d);
      && (q.aborted <==> Poisoned(cs, d))
      && (!q.aborted ==>
            && Sorted(q.rules)
            && forall r :: multiset(q.rules)[r] == if Matches(r.expr, d) then Pending(cs, r) else 0)
    decreases Left(cs)
  {
    hide Delivers, Skipped, Pending, Matches, Testable;
    assert forall j | 0 <= j < |cs| :: Good(cs[j], d);
    SkippedNone(cs, d);
    SearchDelivers(cs, cs, d, 0, None, 0);
    SearchLeft(cs, d, 0, None, 0);
    match Search(cs, d, 0, None, 0)
    case Aborted =>
      var r := SearchAborts(cs, d, 0, None, 0);
    case Found(None, after) => DrainedNone(cs, d, after);
    case Found(Some(m), after) =>
      DrainedIsFilterSort(after, d);
      PoisonedKept(cs, d, m, after);
      if !Drained(after, d).aborted {
        DrainedCons(cs, d, m, after, Drained(after, d).rules);
      }
  }

  lemma DrainedNone(cs: seq<Cursor>, d: Data, after: seq<Cursor>)
    requires Delivers(cs, d, None, after)
    ensures !Poisoned(cs, d) && forall r: Rule :: Matches(r.expr, d) ==> Pending(cs, r) == 0
  {
    hide Pending, Advanced, Matches, Testable;
    forall r: Rule
      ensures Concerns(r.expr, d) ==> Pending(cs, r) == 0
    {
      assert !Due(cs, d, r);
    }
  }

  lemma PoisonedKept(cs: seq<Cursor>, d: Data, m: Rule, after: seq<Cursor>)
    requires Delivers(cs, d, Some(m), after)
    ensures Poisoned(after, d) <==> Poisoned(cs, d)
  {
    hide Pending, Advanced, Matches, Testable;
    forall r: Rule | !Testable(r.expr, d)
      ensures Pending(after, r) == Pending(cs, r)
    {
      assert Accounts(cs, d, Some(m), after, r);
    }
  }

  lemma DrainedCons(cs: seq<Cursor>, d: Data, m: Rule, after: seq<Cursor>, q: seq<Rule>)
    requires Delivers(cs, d, Some(m), after) && Sorted(q)
    requires forall r :: multiset(q)[r] == if Matches(r.expr, d) then Pending(after, r) else 0
    ensures Sorted([m] + q)
    ensures forall r :: multiset([m] + q)[r] == if Matches(r.expr, d) then Pending(cs, r) else 0
  {
    hide Pending, Advanced, Matches, Testable;
    forall r
      ensures multiset([m] + q)[r] == if Matches(r.expr, d) then Pending(cs, r) else 0
    {
      assert Accounts(cs, d, Some(m), after, r);
    }
    forall i | 0 <= i < |q|
      ensures m.priority <= q[i].priority
    {
      assert q[i] in multiset(q);
      assert Accounts(cs, d, Some(m), after, q[i]);
      assert Due(cs, d, q[i]);
    }
  }

  // One turn of the search.

  lemma SearchSkips(cs: seq<Cursor>, d: Data, i: nat, m: Option<Rule>, k: nat)
    requires i < |cs| && Live(cs) && m.Some? && k < i && m.value.priority <= cs[i].rest[0].priority
    ensures Search(cs, d, i, m, k) == Search(cs, d, i + 1, m, k)
  {
    hide Testable, Matches;
  }

  lemma SearchFails(cs: seq<Cursor>, d: Data, i: nat, m: Option<Rule>, k: nat)
    requires i < |cs| && Live(cs) && (m.Some? ==> k < i && cs[i].rest[0].priority < m.value.priority)
    requires !cs[i].isMatch && !Testable(cs[i].rest[0].expr, d)
    ensures Search(cs, d, i, m, k) == Aborted
  {
    hide Testable, Matches;
  }

  lemma SearchTakes(cs: seq<Cursor>, d: Data, i: nat, m: Option<Rule>, k: nat)
    requires i < |cs| && Live(cs) && (m.Some? ==> k < i && cs[i].rest[0].priority < m.value.priority)
    requires cs[i].isMatch || Fires(cs[i].rest[0].expr, d)
    ensures var ds := cs[i := Cursor(cs[i].rest, true)];
      Live(ds) && Search(cs, d, i, m, k) == Search(ds, d, i + 1, Some(cs[i].rest[0]), i)
  {
    hide Testable, Matches;
  }

  lemma SearchPasses(cs: seq<Cursor>, d: Data, i: nat, m: Option<Rule>, k: nat)
    requires i < |cs| && Live(cs) && (m.Some? ==> k < i && cs[i].rest[0].priority < m.value.priority)
    requires !cs[i].isMatch && Testable(cs[i].rest[0].expr, d) && !Matches(cs[i].rest[0].expr, d)
    ensures Live(Passed(cs, i)) && i <= |Passed(cs, i)|
    ensures Search(cs, d, i, m, k) == Search(Passed(cs, i), d, i, m, k)
  {
    hide Testable, Matches;
  }

  lemma SearchEnds(cs: seq<Cursor>, d: Data, m: Option<Rule>, k: nat)
    requires Live(cs) && (m.Some? ==> k < |cs|)
    ensures Search(cs, d, |cs|, m, k) == Found(m, if m.Some? then Passed(cs, k) else cs)
  {
  }

  /** Whether a search aborts can depend on the order of the lists alone: with a rule that
      fires and one of no lower priority number that fails the assertion, it aborts if it comes
      to the second first, and otherwise delivers the first. */
  lemma OrderDecides(good: Rule, bad: Rule, d: Data)
    requires Fires(good.expr, d) && !Testable(bad.expr, d) && good.priority <= bad.priority
    ensures Search([Cursor([bad], false), Cursor([good], false)], d, 0, None, 0) == Aborted
    ensures var found := Search([Cursor([good], false), Cursor([bad], false)], d, 0, None, 0);
      found.Found? && found.rule == Some(good)
  {
    hide Testable, Matches, Search;
    SearchFails([Cursor([bad], false), Cursor([good], false)], d, 0, None, 0);
    var cs, ds := [Cursor([good], false), Cursor([bad], false)], [Cursor([good], true), Cursor([bad], false)];
    SearchTakes(cs, d, 0, None, 0);
    assert cs[0 := Cursor([good], true)] == ds;
    SearchSkips(ds, d, 1, Some(good), 0);
    SearchEnds(ds, d, Some(good), 0);
  }

  /** What a search from the first cursor comes to. */
  lemma SearchStart(cs: seq<Cursor>, d: Data)
    requires AllGood(cs, d)
    ensures Live(cs)
    ensures var s := Search(cs, d, 0, None, 0);
      && (s.Aborted? ==> Poisoned(cs, d))
      && (s.Found? ==>
            && Delivers(cs, d, s.rule, s.after) && AllGood(s.after, d)
            && Left(s.after) <= Left(cs) && (s.rule.Some? ==> Left(s.after) < Left(cs)))
  {
    hide Delivers, Skipped, Pending, Matches, Testable, Left;
    assert forall j | 0 <= j < |cs| :: Good(cs[j], d);
    SkippedNone(cs, d);
    SearchDelivers(cs, cs, d, 0, None, 0);
    SearchLeft(cs, d, 0, None, 0);
    if Search(cs, d, 0, None, 0).Aborted? {
      var r := SearchAborts(cs, d, 0, None, 0);
    }
  }

  class CnodeResult {
    var data: Data
    var numLists: nat
    var traversed: seq<Cursor>

    /** The slots in use. */
    ghost function InUse(): seq<Cursor>
      requires numLists <= |traversed|
      reads this
    {
      traversed[..numLists]
    }

    ghost predicate Valid()
      reads this
    {
      numLists <= |traversed| && AllGood(InUse(), data)
    }

    constructor (data: Data)
      ensures Valid() && numLists == 0 && this.data == data
    {
      this.data, numLists, traversed := data, 0, [];
    }

    /** The lists stay.  A match that was remembered for other data stays remembered, which
        is right exactly if the rule fires for the new data too. */
    method SetData(d: Data)
      requires Valid()
      modifies this
      ensures data == d && numLists == old(numLists) && traversed == old(traversed)
      ensures Valid() <==> forall c | c in InUse() && c.isMatch :: Fires(c.rest[0].expr, d)
    {
      assert forall i | 0 <= i < numLists :: InUse()[i] in InUse() && Good(InUse()[i], data);
      data := d;
      assert forall i | 0 <= i < numLists :: InUse()[i] in InUse();
    }

    method Clear()
      requires Valid()
      modifies this
      ensures Valid() && numLists == 0 && data == old(data)
    {
      numLists := 0;
    }

    method Push(rules: seq<Rule>)
      requires Valid() && Sorted(rules)
      modifies this
      ensures Valid() && data == old(data)
      ensures InUse() == if rules == [] then old(InUse()) else old(InUse()) + [Cursor(rules, false)]
    {
      if rules != [] {
        var r := Cursor(rules, false);
        if numLists == |traversed| {
          traversed := traversed + [r];
        } else {
          traversed := traversed[numLists := r];
        }
        numLists := numLists + 1;
      }
    }

    /** The next rule that matches, in order of priority; none if no pending rule matches.
        A pending rule that fails the assertion may abort it, and does so if no rule before
        it in that order matches. */
    method Next() returns (aborted: bool, match_: Option<Rule>)
      requires Valid()
      modifies this
      ensures Valid() && data == old(data)
      ensures aborted ==> Poisoned(old(InUse()), data)
      ensures !aborted ==>
                && Delivers(old(InUse()), data, match_, InUse())
                && Left(InUse()) <= old(Left(InUse())) && (match_.Some? ==> Left(InUse()) < old(Left(InUse())))
    {
      hide Delivers, Skipped, Pending, Testable, Matches, Search, Passed, Left;
      SearchStart(InUse(), data);
      match_ := None;
      var minPri, minIdx := 0, 0;
      var i := 0;
      while i < numLists
        invariant Valid() && data == old(data) && i <= numLists && Live(InUse())
        invariant match_.Some? ==> minIdx < i && match_.value.priority == minPri
        invariant Search(InUse(), data, i, match_, minIdx) == old(Search(InUse(), data, 0, None, 0))
        decreases Left(InUse()), numLists - i
      {
        ghost var cs := InUse();
        assert Good(cs[i], data);
        var rule := traversed[i].rest[0];
        if match_.None? || rule.priority < minPri {
          if !traversed[i].isMatch && !Testable(rule.expr, data) {
            SearchFails(cs, data, i, match_, minIdx);
            return true, None;
          }
          if traversed[i].isMatch || Matches(rule.expr, data) {
            SearchTakes(cs, data, i, match_, minIdx);
            match_, minPri, minIdx := Some(rule), rule.priority, i;
            Flag(i);
            i := i + 1;
          } else {
            SearchPasses(cs, data, i, match_, minIdx);
            Pass(i);
          }
        } else {
          SearchSkips(cs, data, i, match_, minIdx);
          i := i + 1;
        }
      }
      SearchEnds(InUse(), data, match_, minIdx);
      if match_.Some? {
        Pass(minIdx);
      }
      aborted := false;
    }

    /** Remembers that the first rule of the cursor at `i` matches. */
    method Flag(i: nat)
      requires Valid() && i < numLists && Fires(traversed[i].rest[0].expr, data)
      modifies this
      ensures Valid() && Live(InUse()) && data == old(data) && numLists == old(numLists)
      ensures InUse() == old(InUse())[i := Cursor(old(InUse())[i].rest, true)]
      ensures Left(InUse()) == old(Left(InUse()))
    {
      LeftUpdate(InUse(), i, Cursor(traversed[i].rest, true));
      traversed := traversed[i := traversed[i].(isMatch := true)];
      assert InUse() == old(InUse())[i := Cursor(old(InUse())[i].rest, true)];
    }

    /** Moves the cursor at `i` past its first rule. */
    method Pass(i: nat)
      requires Valid() && i < numLists
      modifies this
      ensures Valid() && data == old(data) && InUse() == Passed(old(InUse()), i)
      ensures Left(InUse()) < old(Left(InUse()))
    {
      PassedLeft(InUse(), i);
      PassedGood(InUse(), i, data);
      if |traversed[i].rest| > 1 {
        traversed := traversed[i := Cursor(traversed[i].rest[1..], false)];
      } else {
        numLists := numLists - 1;
        traversed := traversed[i := traversed[numLists]];
      }
      assert InUse() == Passed(old(InUse()), i);
    }
  }
}
