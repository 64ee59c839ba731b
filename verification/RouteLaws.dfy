/**
 * Laws of the rule interpreter: when two rule lists mean the same, which rules
 * commute, and when a list may be put behind a group.
 */
module RouteLaws {
  import opened Common
  import opened Patterns
  import opened Tails
  import opened Routing

  /** Same deliveries and submissions up to order, same metric, same verdict on stopping. */
  ghost predicate Same(a: Outcome, b: Outcome) {
    && a.metric == b.metric && a.stop == b.stop
    && multiset(a.dels) == multiset(b.dels) && multiset(a.subs) == multiset(b.subs)
  }

  /**
   * The metrics that reach the rules: the name ends at a delimiter no literal
   * contains, and the byte in front of the buffer does not continue a literal.
   */
  predicate Proper(m: Metric) {
    && Delimited(m.InMemory())
    && (m.before != "" ==> !LiteralChar(m.before[|m.before| - 1]))
  }

  ghost predicate Equiv(w: World, a: seq<Route>, b: seq<Route>) {
    forall m: Metric :: Proper(m) ==> Same(RouteAll(w, m, a), RouteAll(w, m, b))
  }

  // Rules change the name of a metric and nothing else of it.

  lemma {:induction false} RewriteKeepsData(m: Metric, nmatch: nat, spans: seq<Span>, template: string)
    ensures var m' := RewriteTo(m, nmatch, spans, template);
            m'.Some? ==> m'.value == m.(name := m'.value.name)
  {
  }

  lemma {:induction false} DestKeepsData(w: World, m: Metric, r: Route, spans: seq<Span>, d: Cluster, last: bool)
    ensures var s := ApplyDest(w, m, r, spans, d, last);
            s.metric == m.(name := s.metric.name) && (!d.Rewrite? ==> s.metric == m)
  {
    hide RouteAll, Targets, MatchRule, DataOf, RewriteTo, Stripped, Overlaid;
    if d.Rewrite? {
      RewriteKeepsData(m, r.matcher.nmatch, spans, d.replacement);
    }
  }

  lemma {:induction false} DestsKeepData(w: World, m: Metric, r: Route, spans: seq<Span>, dests: seq<Cluster>)
    ensures var o := ApplyDests(w, m, r, spans, dests); o.metric == m.(name := o.metric.name)
    ensures (forall d :: d in dests ==> !d.Rewrite?) ==> ApplyDests(w, m, r, spans, dests).metric == m
    decreases |dests|
  {
    hide ApplyDest;
    if dests != [] {
      var s := ApplyDest(w, m, r, spans, dests[0], |dests| == 1);
      DestKeepsData(w, m, r, spans, dests[0], |dests| == 1);
      if !s.over {
        DestsKeepData(w, s.metric, r, s.spans, dests[1..]);
      }
    }
  }

  lemma {:induction false} RouteKeepsData(w: World, m: Metric, r: Route)
    ensures var o := ApplyRoute(w, m, r); o.metric == m.(name := o.metric.name)
    ensures (forall d :: d in r.dests ==> !d.Rewrite?) ==> ApplyRoute(w, m, r).metric == m
  {
    var spans := MatchRule(w, r.matcher, m);
    if spans.Some? {
      DestsKeepData(w, m, r, spans.value, r.dests);
    }
  }

  lemma {:induction false} RulesKeepData(w: World, m: Metric, rules: seq<Route>)
    ensures var o := RouteAll(w, m, rules); o.metric == m.(name := o.metric.name)
    ensures Proper(m) ==> Proper(RouteAll(w, m, rules).metric)
    ensures (forall r :: r in rules ==> Groupable(r)) ==> RouteAll(w, m, rules).metric == m
    decreases |rules|
  {
    if rules != [] {
      assert rules[0] in rules;
      RouteKeepsData(w, m, rules[0]);
      RulesKeepData(w, ApplyRoute(w, m, rules[0]).metric, rules[1..]);
    }
  }

  lemma {:induction false} RouteAllAppend(w: World, m: Metric, a: seq<Route>, b: seq<Route>)
    ensures var o := RouteAll(w, m, a);
            RouteAll(w, m, a + b) == if o.stop then o else Then(o.dels, o.subs, RouteAll(w, o.metric, b))
    decreases |a|
  {
    if a == [] {
      assert a + b == b;
      ThenThen([], [], [], [], RouteAll(w, m, b));
    } else {
      var o := ApplyRoute(w, m, a[0]);
      assert (a + b)[1..] == a[1..] + b;
      if !o.stop {
        RouteAllAppend(w, o.metric, a[1..], b);
        var rest := RouteAll(w, o.metric, a[1..]);
        ThenThen(o.dels, o.subs, rest.dels, rest.subs, RouteAll(w, rest.metric, b));
      }
    }
  }

  /** Equivalence is a congruence: replacing a part of a list keeps the meaning of the whole. */
  lemma {:induction false} EquivInContext(w: World, before: seq<Route>, a: seq<Route>, b: seq<Route>, after: seq<Route>)
    requires Equiv(w, a, b)
    ensures Equiv(w, before + a + after, before + b + after)
  {
    forall m: Metric | Proper(m)
      ensures Same(RouteAll(w, m, before + a + after), RouteAll(w, m, before + b + after))
    {
      var o := RouteAll(w, m, before);
      var m' := o.metric;
      assert before + a + after == before + (a + after) && before + b + after == before + (b + after);
      RulesKeepData(w, m, before);
      RouteAllAppend(w, m, before, a + after);
      RouteAllAppend(w, m, before, b + after);
      RouteAllAppend(w, m', a, after);
      RouteAllAppend(w, m', b, after);
      assert !o.stop ==> Same(RouteAll(w, m', a), RouteAll(w, m', b));
    }
  }

  lemma {:induction false} EquivReflexive(w: World, a: seq<Route>)
    ensures Equiv(w, a, a)
  {
  }

  lemma {:induction false} EquivTransitive(w: World, a: seq<Route>, b: seq<Route>, c: seq<Route>)
    requires Equiv(w, a, b) && Equiv(w, b, c)
    ensures Equiv(w, a, c)
  {
    forall m: Metric | Proper(m) ensures Same(RouteAll(w, m, a), RouteAll(w, m, c)) {
      assert Same(RouteAll(w, m, a), RouteAll(w, m, b)) && Same(RouteAll(w, m, b), RouteAll(w, m, c));
    }
  }

  // ---------------------------------------------------------------------
  // Which servers a metric goes to
  // ---------------------------------------------------------------------

  /** The masquerade of a rule on a metric; the name itself without one. */
  function KeyOf(r: Route, m: Metric, spans: seq<Span>): Option<string> {
    if r.masq.None? then Some(m.name)
    else
      var key := RewriteTo(m, r.matcher.nmatch, spans, r.masq.value);
      if key.None? then None else Some(key.value.name)
  }

  /**
   * Main result: the data of a metric has no say in where it goes. A metric of
   * the same name goes to the same servers, and a ring takes metrics whose
   * masquerades expand to the same text to the same servers, whatever their names.
   */
  lemma {:induction false} SameNameSameServers(w: World, r: Route, d: Cluster, m1: Metric, spans1: seq<Span>,
                                               m2: Metric, spans2: seq<Span>)
    requires if d.ConsistentHash? then KeyOf(r, m1, spans1) == KeyOf(r, m2, spans2) else m1.name == m2.name
    ensures Recipients(Targets(w, r, m1, spans1, d)) == Recipients(Targets(w, r, m2, spans2, d))
  {
    hide RewriteTo;
  }

  lemma {:induction false} RecipientsAppend(a: seq<Delivery>, b: seq<Delivery>)
    ensures Recipients(a + b) == Recipients(a) + Recipients(b)
  {
  }

  /** Rules whose verdict rests on the name alone: no validation, masquerade, rewrite or stub. */
  predicate NameRule(r: Route) {
    r.masq.None? && forall d :: d in r.dests ==> CalmDest(d) && !d.Validation?
  }

  /** Two metrics of one name, in places where rules cannot tell them apart. */
  ghost predicate Alike(w: World, rules: seq<Route>, m1: Metric, m2: Metric) {
    && m1.name == m2.name
    && forall r :: r in rules ==> (MatchRule(w, r.matcher, m1).Some? <==> MatchRule(w, r.matcher, m2).Some?)
  }

  lemma {:induction false} SameDests(w: World, r: Route, dests: seq<Cluster>, m1: Metric, s1: seq<Span>, m2: Metric,
                                     s2: seq<Span>)
    requires r.masq.None? && (forall d :: d in dests ==> CalmDest(d) && !d.Validation?) && m1.name == m2.name
    ensures var a, b := ApplyDests(w, m1, r, s1, dests), ApplyDests(w, m2, r, s2, dests);
            && Recipients(a.dels) == Recipients(b.dels) && a.stop == b.stop
            && a.metric == m1 && b.metric == m2
    decreases |dests|
  {
    hide Targets, RewriteTo;
    if dests != [] {
      var d := dests[0];
      assert CalmDest(d);
      SameNameSameServers(w, r, d, m1, s1, m2, s2);
      if !d.Aggregation? {
        SameDests(w, r, dests[1..], m1, s1, m2, s2);
        RecipientsAppend(Targets(w, r, m1, s1, d), ApplyDests(w, m1, r, s1, dests[1..]).dels);
        RecipientsAppend(Targets(w, r, m2, s2, d), ApplyDests(w, m2, r, s2, dests[1..]).dels);
      }
    }
  }

  lemma {:induction false} SameRule(w: World, r: Route, m1: Metric, m2: Metric)
    requires NameRule(r) && Alike(w, [r], m1, m2)
    ensures var a, b := ApplyRoute(w, m1, r), ApplyRoute(w, m2, r);
            Recipients(a.dels) == Recipients(b.dels) && a.stop == b.stop && a.metric == m1 && b.metric == m2
  {
    hide MatchRule, ApplyDests;
    assert r in [r];
    assert r.dests != [] ==> r.dests[0] in r.dests;
    var s1, s2 := MatchRule(w, r.matcher, m1), MatchRule(w, r.matcher, m2);
    if s1.Some? {
      SameDests(w, r, r.dests, m1, s1.value, m2, s2.value);
    }
  }

  /** Main result: so it is for whole lists of such rules, whatever value and time a metric carries. */
  lemma {:induction false} SameNameSameRoute(w: World, rules: seq<Route>, m1: Metric, m2: Metric)
    requires (forall r :: r in rules ==> NameRule(r)) && Alike(w, rules, m1, m2)
    ensures var a, b := RouteAll(w, m1, rules), RouteAll(w, m2, rules);
            Recipients(a.dels) == Recipients(b.dels) && a.stop == b.stop
    decreases |rules|
  {
    hide MatchRule, ApplyRoute;
    if rules != [] {
      var r := rules[0];
      assert r in rules;
      SameRule(w, r, m1, m2);
      SameNameSameRoute(w, rules[1..], m1, m2);
      var a, b := ApplyRoute(w, m1, r), ApplyRoute(w, m2, r);
      RecipientsAppend(a.dels, RouteAll(w, m1, rules[1..]).dels);
      RecipientsAppend(b.dels, RouteAll(w, m2, rules[1..]).dels);
    }
  }

  // ---------------------------------------------------------------------
  // Calm rules: they neither stop nor change the metric
  // ---------------------------------------------------------------------

  predicate CalmDest(d: Cluster) {
    !d.Rewrite? && !d.Stub? && !d.Group?
  }

  predicate Calm(r: Route) {
    && !r.stop && r.dests != []
    && !r.dests[|r.dests| - 1].Validation?
    && forall d :: d in r.dests ==> CalmDest(d)
  }

  lemma {:induction false} CalmDests(w: World, m: Metric, r: Route, spans: seq<Span>, dests: seq<Cluster>)
    requires !r.stop && forall d :: d in dests ==> CalmDest(d)
    requires dests != [] ==> !dests[|dests| - 1].Validation?
    ensures ApplyDests(w, m, r, spans, dests).metric == m && !ApplyDests(w, m, r, spans, dests).stop
    decreases |dests|
  {
    if dests != [] {
      var s := ApplyDest(w, m, r, spans, dests[0], |dests| == 1);
      assert CalmDest(dests[0]);
      if !s.over {
        CalmDests(w, m, r, s.spans, dests[1..]);
      }
    }
  }

  lemma {:induction false} CalmRule(w: World, m: Metric, r: Route)
    requires Calm(r)
    ensures ApplyRoute(w, m, r).metric == m && !ApplyRoute(w, m, r).stop
  {
    assert r.dests[0] in r.dests;
    var spans := MatchRule(w, r.matcher, m);
    if spans.Some? {
      CalmDests(w, m, r, spans.value, r.dests);
    }
  }

  // ---------------------------------------------------------------------
  // When rules may change places
  // ---------------------------------------------------------------------

  ghost predicate Exchangeable(w: World, x: Route, y: Route) {
    Equiv(w, [x, y], [y, x])
  }

  /** Two outcomes whose order does not matter: what a stop cuts off is nothing. */
  ghost predicate Orderless(a: Outcome, b: Outcome) {
    if a.stop && b.stop then multiset(a.dels) == multiset(b.dels) && multiset(a.subs) == multiset(b.subs)
    else (a.stop ==> b.dels == [] && b.subs == []) && (b.stop ==> a.dels == [] && a.subs == [])
  }

  lemma {:induction false} TwoRules(w: World, m: Metric, x: Route, y: Route)
    requires Groupable(x) && Groupable(y)
    ensures var a, b := ApplyRoute(w, m, x), ApplyRoute(w, m, y);
            && a.metric == m && b.metric == m
            && RouteAll(w, m, [x, y]) == if a.stop then a else Then(a.dels, a.subs, b)
  {
    hide ApplyRoute;
    RouteKeepsData(w, m, x);
    RouteKeepsData(w, m, y);
    var b := ApplyRoute(w, m, y);
    assert [x, y][1..] == [y] && [y][1..] == [];
    assert RouteAll(w, m, [y]) == if b.stop then b else Then(b.dels, b.subs, RouteAll(w, b.metric, []));
    assert RouteAll(w, m, [y]) == b;
  }

  lemma {:induction false} NothingAdded<T>(a: seq<T>, b: seq<T>)
    ensures multiset(a) == multiset(b + a) <==> b == []
  {
    assert |multiset(a)| == |a| && |multiset(b + a)| == |b| + |a|;
    assert b == [] ==> b + a == a;
  }

  /** Main result: two rules that leave the name alone may change places exactly when no metric notices. */
  lemma {:induction false} ExchangeableExactlyWhen(w: World, x: Route, y: Route)
    requires Groupable(x) && Groupable(y)
    ensures Exchangeable(w, x, y) <==>
            forall m: Metric :: Proper(m) ==> Orderless(ApplyRoute(w, m, x), ApplyRoute(w, m, y))
  {
    hide RouteAll, ApplyRoute, Groupable, Proper;
    forall m: Metric
      ensures Same(RouteAll(w, m, [x, y]), RouteAll(w, m, [y, x])) <==>
              Orderless(ApplyRoute(w, m, x), ApplyRoute(w, m, y))
    {
      TwoRules(w, m, x, y);
      TwoRules(w, m, y, x);
      var a, b := ApplyRoute(w, m, x), ApplyRoute(w, m, y);
      NothingAdded(a.dels, b.dels);
      NothingAdded(b.dels, a.dels);
      NothingAdded(a.subs, b.subs);
      NothingAdded(b.subs, a.subs);
    }
  }

  lemma {:induction false} CalmRulesExchange(w: World, x: Route, y: Route)
    requires Calm(x) && Calm(y)
    ensures Exchangeable(w, x, y)
  {
    hide RouteAll, ApplyRoute;
    forall m: Metric ensures Orderless(ApplyRoute(w, m, x), ApplyRoute(w, m, y)) {
      CalmRule(w, m, x);
      CalmRule(w, m, y);
    }
    CalmIsGroupable(x);
    CalmIsGroupable(y);
    ExchangeableExactlyWhen(w, x, y);
  }

  lemma {:induction false} CalmIsGroupable(r: Route)
    requires Calm(r)
    ensures Groupable(r)
  {
    assert forall d :: d in r.dests ==> CalmDest(d);
  }

  /** A rule moves in front of a list when it may change places with each rule in it. */
  lemma {:induction false} RuleMovesForward(w: World, rules: seq<Route>, r: Route)
    requires forall x :: x in rules ==> Exchangeable(w, x, r)
    ensures Equiv(w, rules + [r], [r] + rules)
    decreases |rules|
  {
    hide Equiv;
    if rules == [] {
      assert rules + [r] == [r] + rules;
      EquivReflexive(w, rules + [r]);
    } else {
      var init, x := rules[..|rules| - 1], rules[|rules| - 1];
      assert rules == init + [x];
      assert x in rules && Exchangeable(w, x, r);
      RuleMovesForward(w, init, r);
      EquivInContext(w, init, [x, r], [r, x], []);
      EquivInContext(w, [], init + [r], [r] + init, [x]);
      assert init + [x, r] + [] == rules + [r];
      assert init + [r, x] + [] == [] + (init + [r]) + [x];
      assert [] + ([r] + init) + [x] == [r] + rules;
      EquivTransitive(w, rules + [r], init + [r, x] + [], [r] + rules);
    }
  }

  lemma {:induction false} ListsExchange(w: World, a: seq<Route>, b: seq<Route>)
    requires forall x, y :: x in a && y in b ==> Exchangeable(w, x, y)
    ensures Equiv(w, a + b, b + a)
    decreases |b|
  {
    hide Equiv;
    if b == [] {
      assert a + b == b + a;
      EquivReflexive(w, a + b);
    } else {
      var y, rest := b[0], b[1..];
      assert b == [y] + rest;
      RuleMovesForward(w, a, y);
      ListsExchange(w, a, rest);
      EquivInContext(w, [], a + [y], [y] + a, rest);
      EquivInContext(w, [y], a + rest, rest + a, []);
      assert [] + (a + [y]) + rest == a + b;
      assert [] + ([y] + a) + rest == [y] + (a + rest) + [];
      assert [y] + (rest + a) + [] == b + a;
      EquivTransitive(w, a + b, [y] + (a + rest) + [], b + a);
    }
  }

  // ---------------------------------------------------------------------
  // Groups
  // ---------------------------------------------------------------------

  function GroupRoute(tail: string, routes: seq<Route>): Route {
    Route(Matcher("", Contains, "", 0), None, false, [Group(tail, routes)])
  }

  /** The rule matches only names that contain the tail. */
  ghost predicate Needs(w: World, r: Route, tail: string) {
    forall m: Metric :: Proper(m) && MatchRule(w, r.matcher, m).Some? ==> Substring(Reverse(tail), m.name)
  }

  /** What may stand in a group: no group itself, and nothing that moves the cursor. */
  predicate Groupable(r: Route) {
    r.dests != [] && forall d :: d in r.dests ==> !d.Group? && !d.Rewrite?
  }

  lemma {:induction false} NothingMatches(w: World, m: Metric, rules: seq<Route>)
    requires forall r :: r in rules ==> Groupable(r) && MatchRule(w, r.matcher, m).None?
    ensures RouteAll(w, m, rules) == Outcome(m, [], [], false)
    decreases |rules|
  {
    if rules != [] {
      assert rules[0] in rules;
      assert rules[0].dests[0] in rules[0].dests;
      NothingMatches(w, m, rules[1..]);
    }
  }

  /** Putting rules behind a group whose tail they all need changes nothing. */
  lemma {:induction false} GroupMeansItsRules(w: World, tail: string, routes: seq<Route>)
    requires forall r :: r in routes ==> Groupable(r) && Needs(w, r, tail)
    requires tail != ""
    ensures Equiv(w, routes, [GroupRoute(tail, routes)])
  {
    var g := GroupRoute(tail, routes);
    forall m: Metric | Proper(m) ensures Same(RouteAll(w, m, routes), RouteAll(w, m, [g])) {
      RulesKeepData(w, m, routes);
      assert g.dests[0] == Group(tail, routes);
      var o := ApplyRoute(w, m, g);
      if !Substring(Reverse(tail), m.name) {
        NothingMatches(w, m, routes);
      }
      assert o == RouteAll(w, m, routes);
      assert [g][1..] == [];
      assert RouteAll(w, o.metric, []) == Outcome(o.metric, [], [], false);
    }
  }
}
