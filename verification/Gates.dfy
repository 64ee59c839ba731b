/**
 * A group hides its rules from names without its tail (`router_optimise`,
 * `router_route_intern`). Exactly when a rule loses metrics that way, and a
 * regular expression for which it does.
 */
module Gates {
  import opened Common
  import opened Patterns
  import opened Tails
  import opened Routing
  import opened RouteLaws
  import opened Optimiser
  import opened Checks

  lemma {:induction false} OneCollectedOf(r: Route, t: string)
    requires Tailed(r, t) && !r.stop
    ensures Optimised([r, r, r]) == [GroupRoute(t, [r, r, r])]
  {
    hide Tailed, Collected, Placed, FindFrom, Reduced;
    var rules, dummy := [r, r, r], Block(None, 0, 0, 0, []);
    var one := Started(r, t, 1);
    var two := Grown(one, r);
    var three := Grown(two, r);
    OneCollected(r, r, r, t);
    JoinLast(rules, 1, r, t, dummy, one);
    JoinLast(rules, 2, r, t, dummy, two);
    assert rules[..3] == rules && three.routes == [r, r, r];
    assert [dummy, three] == [dummy] + [three];
    ReducedAppend([dummy], [three]);
    ReducedOne(dummy);
    ReducedOne(three);
  }

  lemma {:induction false} JoinLast(rules: seq<Route>, i: nat, r: Route, t: string, dummy: Block, b: Block)
    requires i < |rules| && rules[i] == r && Tailed(r, t) && !r.stop
    requires dummy.pattern.None? && b.pattern == Some(t)
    requires Collected(rules[..i]) == Pass([dummy, b], Some(0), 1)
    ensures Collected(rules[..i + 1]) == Pass([dummy, Grown(b, r)], Some(0), 1)
  {
    hide HasTail, TailOf, Collected, FindFrom;
    CollectedStep(rules, i);
    FindFirst([dummy, b], t, Some(1));
    assert [dummy, b][1 := Grown(b, r)] == [dummy, Grown(b, r)];
  }

  /** Every metric the rule does something with passes the gate. */
  ghost predicate GateLetsThrough(w: World, r: Route, t: string) {
    forall m: Metric :: Proper(m) ==> GateOpen(w, m, t) || ApplyRoute(w, m, r).dels == []
  }

  lemma {:induction false} SentByThree(w: World, m: Metric, r: Route)
    requires Calm(r)
    ensures Sent(w, m, [r, r, r]) == 3 * |ApplyRoute(w, m, r).dels|
  {
    hide ApplyRoute, RouteAll, Sent, Calm;
    SentCalm(w, m, r, [r, r]);
    SentCalm(w, m, r, [r]);
    SentCalm(w, m, r, []);
    assert [r] + [r, r] == [r, r, r] && [r] + [r] == [r, r] && [r] + [] == [r];
    NothingSent(w, m);
  }

  lemma {:induction false} NothingSent(w: World, m: Metric)
    ensures Sent(w, m, []) == 0
  {
  }

  lemma {:induction false} GroupOutcome(w: World, m: Metric, t: string, rules: seq<Route>)
    requires forall r :: r in rules ==> Groupable(r)
    ensures RouteAll(w, m, [GroupRoute(t, rules)]) ==
            if GateOpen(w, m, t) then RouteAll(w, m, rules) else Outcome(m, [], [], false)
  {
    hide GateOpen;
    var g := GroupRoute(t, rules);
    RulesKeepData(w, m, rules);
    assert g.dests[0] == Group(t, rules) && [g][1..] == [];
    var o := ApplyRoute(w, m, g);
    assert RouteAll(w, o.metric, []) == Outcome(o.metric, [], [], false);
  }

  /** Only deliveries: no aggregations among the destinations. */
  predicate OnlyDelivers(r: Route) {
    Calm(r) && forall d :: d in r.dests ==> !d.Aggregation?
  }

  lemma {:induction false} NothingSubmitted(w: World, m: Metric, r: Route, spans: seq<Span>, dests: seq<Cluster>)
    requires forall d :: d in dests ==> CalmDest(d) && !d.Aggregation?
    ensures ApplyDests(w, m, r, spans, dests).subs == []
    decreases |dests|
  {
    if dests != [] {
      var s := ApplyDest(w, m, r, spans, dests[0], |dests| == 1);
      assert CalmDest(dests[0]);
      if !s.over {
        NothingSubmitted(w, s.metric, r, s.spans, dests[1..]);
      }
    }
  }

  lemma {:induction false} DeliversOnly(w: World, m: Metric, r: Route)
    requires OnlyDelivers(r)
    ensures ApplyRoute(w, m, r).subs == []
  {
    assert r.dests[0] in r.dests && CalmDest(r.dests[0]);
    var spans := MatchRule(w, r.matcher, m);
    if spans.Some? {
      NothingSubmitted(w, m, r, spans.value, r.dests);
    }
  }

  lemma {:induction false} ThreeOfThem(w: World, m: Metric, r: Route)
    requires OnlyDelivers(r) && ApplyRoute(w, m, r).dels == []
    ensures RouteAll(w, m, [r, r, r]) == Outcome(m, [], [], false)
  {
    hide ApplyRoute, Calm;
    DeliversOnly(w, m, r);
    CalmRule(w, m, r);
    assert [r, r, r][1..] == [r, r] && [r, r][1..] == [r] && [r][1..] == [];
    assert RouteAll(w, m, [r]) == Outcome(m, [], [], false);
    assert RouteAll(w, m, [r, r]) == Outcome(m, [], [], false);
  }

  /**
   * Main result: three rules alike that only deliver become one group, and that
   * keeps their meaning exactly when each metric they deliver has the tail in
   * its name.
   */
  lemma {:induction false} GroupLosesExactlyWhen(w: World, r: Route, t: string)
    requires Tailed(r, t) && OnlyDelivers(r)
    ensures Optimised([r, r, r]) == [GroupRoute(t, [r, r, r])]
    ensures Equiv(w, [r, r, r], Optimised([r, r, r])) <==> GateLetsThrough(w, r, t)
  {
    hide ApplyRoute, RouteAll, Optimised, Tailed, GateOpen, Calm, GroupRoute, Sent;
    CalmGroup(r);
    OneCollectedOf(r, t);
    var g := GroupRoute(t, [r, r, r]);
    forall m: Metric | Proper(m)
      ensures Same(RouteAll(w, m, [r, r, r]), RouteAll(w, m, [g])) <==>
              GateOpen(w, m, t) || ApplyRoute(w, m, r).dels == []
    {
      GroupOutcome(w, m, t, [r, r, r]);
      if GateOpen(w, m, t) {
      } else if ApplyRoute(w, m, r).dels == [] {
        ThreeOfThem(w, m, r);
      } else {
        SentByThree(w, m, r);
        SentIs(w, m, [r, r, r]);
      }
    }
  }

  lemma {:induction false} CalmGroup(r: Route)
    requires OnlyDelivers(r)
    ensures !r.stop && forall x :: x in [r, r, r] ==> Groupable(x)
  {
    hide Calm, Groupable;
    CalmIsGroupable(r);
    CalmHasNoStop(r);
  }

  lemma {:induction false} CalmHasNoStop(r: Route)
    requires Calm(r)
    ensures !r.stop
  {
  }

  lemma {:induction false} SentIs(w: World, m: Metric, rules: seq<Route>)
    ensures Sent(w, m, rules) == |multiset(RouteAll(w, m, rules).dels)|
  {
    hide RouteAll;
  }

  // ---------------------------------------------------------------------
  // An alternative outside parentheses
  // ---------------------------------------------------------------------

  function Either(): Route {
    Route(Matcher("aaa|bbb", Regex, "", 0), None, false, [Forward([7])])
  }

  lemma {:induction false} EitherTail()
    ensures TailOf("aaa|bbb") == Tail("bbb")
  {
    var pat := "aaa|bbb";
    assert forall i :: 0 <= i < 7 ==> pat[i] != '(' && pat[i] != ')';
    hide TailOf;
    FlatDepth(pat, 7);
    assert LastRun(pat, 4, 3) by {
      forall i | 4 <= i < 7 ensures Outside(pat, i) {
        FlatDepth(pat, i);
      }
    }
    TailIsLastRun(pat);
    assert Reverse(pat[4..7]) == "bbb";
  }

  lemma {:induction false} FlatDepth(pat: string, i: nat)
    requires i <= |pat| && forall k :: 0 <= k < i ==> pat[k] != '(' && pat[k] != ')'
    ensures Depth(pat, i) == 0
    decreases i
  {
    if i > 0 {
      FlatDepth(pat, i - 1);
    }
  }

  /** With any engine that finds `aaa|bbb` in "aaa", three such rules deliver it three times, and optimised never. */
  lemma {:induction false} AlternativeIsLost(w: World)
    requires w.regexec("aaa|bbb", "aaa").Some?
    ensures var r, m := Either(), Metric("", "aaa", " 1\n");
            && Configured(r) && Proper(m)
            && Optimised([r, r, r]) == [GroupRoute("bbb", [r, r, r])]
            && Sent(w, m, [r, r, r]) == 3 && Sent(w, m, Optimised([r, r, r])) == 0
  {
    var r, m := Either(), Metric("", "aaa", " 1\n");
    EitherTail();
    assert Tailed(r, "bbb") && OnlyDelivers(r) && Configured(r) && Proper(m);
    EitherSends(w);
    EitherIsShut(w);
    hide Optimised, Sent, ApplyRoute, GateOpen;
    OneCollectedOf(r, "bbb");
    CalmGroup(r);
    SentByThree(w, m, r);
    GroupOutcome(w, m, "bbb", [r, r, r]);
    SentIs(w, m, Optimised([r, r, r]));
  }

  lemma {:induction false} EitherSends(w: World)
    requires w.regexec("aaa|bbb", "aaa").Some?
    ensures |ApplyRoute(w, Metric("", "aaa", " 1\n"), Either()).dels| == 1
  {
    var r, m := Either(), Metric("", "aaa", " 1\n");
    var spans := MatchRule(w, r.matcher, m);
    assert spans.Some?;
    hide MatchRule;
    assert r.dests[1..] == [];
    assert ApplyDests(w, m, r, spans.value, r.dests) ==
           Then(SendAll(w, [7], m.Text()), [], Outcome(m, [], [], false));
  }

  lemma {:induction false} EitherIsShut(w: World)
    ensures !GateOpen(w, Metric("", "aaa", " 1\n"), "bbb")
  {
    assert Reverse("bbb") == "bbb";
    forall i ensures !OccursAt("bbb", "aaa", i) {
      assert 0 <= i && i + 3 <= 3 ==> "aaa"[i..i + 3][0] == 'a';
    }
  }
}
