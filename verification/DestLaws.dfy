/**
 * What each kind of destination does to the rest of its rule and of the list
 * (`router_route_intern`), stated of whole rules and lists.
 */
module DestLaws {
  import opened Common
  import opened Patterns
  import opened Routing
  import opened RouteLaws
  import RW = Rewrite
  import RWL = RewriteLaws

  /** A rule of these destinations, and a metric it matches. */
  ghost predicate Matched(w: World, m: Metric, r: Route) {
    r.dests != [] && !r.dests[0].Group? && MatchRule(w, r.matcher, m).Some?
  }

  lemma {:induction false} OneRule(w: World, m: Metric, r: Route, rest: seq<Route>)
    ensures var o := ApplyRoute(w, m, r);
            RouteAll(w, m, [r] + rest) == if o.stop then o else Then(o.dels, o.subs, RouteAll(w, o.metric, rest))
  {
    hide ApplyRoute;
    assert ([r] + rest)[0] == r && ([r] + rest)[1..] == rest;
  }

  lemma {:induction false} FirstDest(w: World, m: Metric, r: Route, spans: seq<Span>)
    requires r.dests != []
    ensures var s := ApplyDest(w, m, r, spans, r.dests[0], |r.dests| == 1);
            ApplyDests(w, m, r, spans, r.dests) ==
            if s.over then Outcome(s.metric, s.dels, s.subs, s.stop)
            else Then(s.dels, s.subs, ApplyDests(w, s.metric, r, s.spans, r.dests[1..]))
    ensures forall m: Metric, spans: seq<Span> :: ApplyDests(w, m, r, spans, []) == Outcome(m, [], [], r.stop)
  {
    hide ApplyDest;
  }

  lemma {:induction false} StopIsKept(w: World, m: Metric, r: Route, spans: seq<Span>, dests: seq<Cluster>)
    requires r.stop
    ensures ApplyDests(w, m, r, spans, dests).stop
    decreases |dests|
  {
    if dests != [] {
      var s := ApplyDest(w, m, r, spans, dests[0], |dests| == 1);
      if !s.over {
        StopIsKept(w, s.metric, r, s.spans, dests[1..]);
      }
    }
  }

  /** A matching rule with stop ends the list: the rules behind it are not asked. */
  lemma {:induction false} StopEndsList(w: World, m: Metric, r: Route, rest: seq<Route>)
    requires Matched(w, m, r) && r.stop
    ensures RouteAll(w, m, [r] + rest) == ApplyRoute(w, m, r) && ApplyRoute(w, m, r).stop
  {
    hide MatchRule, ApplyDests;
    StopIsKept(w, m, r, MatchRule(w, r.matcher, m).value, r.dests);
    OneRule(w, m, r, rest);
  }

  /** A rule that does not match is as good as absent, stop or not. */
  lemma {:induction false} NoMatchNoEffect(w: World, m: Metric, r: Route, rest: seq<Route>)
    requires r.dests != [] && !r.dests[0].Group? && MatchRule(w, r.matcher, m).None?
    ensures RouteAll(w, m, [r] + rest) == RouteAll(w, m, rest)
  {
    hide MatchRule;
    OneRule(w, m, r, rest);
    ThenThen([], [], [], [], RouteAll(w, m, rest));
  }

  /** The data a validation looks at: what stands between the space and the newline. */
  lemma {:induction false} DataSeen(before: string, name: string, x: string)
    ensures DataOf(Metric(before, name, " " + x + "\n")) == Metric(before + name + " ", x, "\n")
  {
    var d := " " + x + "\n";
    assert d[..1] == " " && d[1..|d| - 1] == x && d[|d| - 1..] == "\n";
  }

  /**
   * Main result: a validation guards the destinations behind it. Bad data
   * reaches none of them and goes on to the next rule, unless the rule stops;
   * good data passes it by.
   */
  lemma {:induction false} ValidationGuards(w: World, m: Metric, r: Route, check: Matcher, dests: seq<Cluster>)
    requires Matched(w, m, r) && r.dests == [Validation(check)] + dests && dests != []
    ensures var ok := MatchRule(w, check, DataOf(m));
            ApplyRoute(w, m, r) ==
            if ok.None? then Outcome(m, [], [], r.stop)
            else ApplyDests(w, m, r, Overlaid(MatchRule(w, r.matcher, m).value, ok.value), dests)
  {
    hide MatchRule, DataOf, Overlaid;
    assert r.dests[1..] == dests && r.dests[0] == Validation(check);
    var spans, ok := MatchRule(w, r.matcher, m).value, MatchRule(w, check, DataOf(m));
    FirstDest(w, m, r, spans);
    if ok.Some? {
      ThenThen([], [], [], [], ApplyDests(w, m, r, Overlaid(spans, ok.value), dests));
    }
  }

  /** An aggregation takes the metric in once, and the destinations behind it get nothing of it. */
  lemma {:induction false} AggregationTakesItIn(w: World, m: Metric, r: Route, a: nat, dests: seq<Cluster>)
    requires Matched(w, m, r) && r.dests == [Aggregation(a)] + dests
    ensures var spans := MatchRule(w, r.matcher, m).value;
            ApplyRoute(w, m, r) == Outcome(m, [], [Submission(a, m, r.matcher.nmatch, spans)], r.stop)
  {
    hide MatchRule;
    assert r.dests[0] == Aggregation(a);
    FirstDest(w, m, r, MatchRule(w, r.matcher, m).value);
  }

  /** A stub hands on the name without its own pattern, keeps the metric, and stops as its rule says. */
  lemma {:induction false} StubStripsPattern(w: World, m: Metric, r: Route, rest: string, inner: seq<Route>)
    requires Matched(w, m, r) && r.dests == [Stub(inner)] && m.name == r.matcher.pattern + rest
    ensures var o := RouteAll(w, Metric(m.before + r.matcher.pattern, rest, m.data), inner);
            ApplyRoute(w, m, r) == Outcome(m, o.dels, o.subs, r.stop)
  {
    hide MatchRule, RouteAll;
    var pat := r.matcher.pattern;
    assert m.name[..|pat|] == pat && m.name[|pat|..] == rest;
    assert Stripped(m, r) == Metric(m.before + pat, rest, m.data);
    FirstDest(w, m, r, MatchRule(w, r.matcher, m).value);
    assert r.dests[1..] == [];
    var o := RouteAll(w, Stripped(m, r), inner);
    assert o.dels + [] == o.dels && o.subs + [] == o.subs;
  }

  /** A rewrite renames the metric for all rules behind it, and delivers nothing itself. */
  lemma {:induction false} RewriteRenames(w: World, m: Metric, r: Route, template: string, rest: seq<Route>)
    requires Matched(w, m, r) && r.dests == [Cluster.Rewrite(template)] && !r.stop
    ensures var m' := RewriteTo(m, r.matcher.nmatch, MatchRule(w, r.matcher, m).value, template);
            RouteAll(w, m, [r] + rest) == RouteAll(w, if m'.Some? then m'.value else m, rest)
  {
    hide MatchRule, RewriteTo;
    FirstDest(w, m, r, MatchRule(w, r.matcher, m).value);
    assert r.dests[1..] == [];
    var m' := RewriteTo(m, r.matcher.nmatch, MatchRule(w, r.matcher, m).value, template);
    var after := if m'.Some? then m'.value else m;
    ThenThen([], [], [], [], Outcome(after, [], [], false));
    assert ApplyRoute(w, m, r) == Outcome(after, [], [], false);
    OneRule(w, m, r, rest);
    ThenThen([], [], [], [], RouteAll(w, after, rest));
  }

  /** The new name is the template's meaning in place of the matched part. */
  lemma {:induction false} RewriteToMeans(m: Metric, nmatch: nat, spans: seq<Span>, items: seq<RW.Item>)
    requires var mt := RW.Match(m.Text(), |m.name|, nmatch, spans + [Span(-1, -1)]);
             && mt.WellFormed() && RW.GoodItems(items) && RW.Faithful(nmatch, None, items)
             && RW.Fits(mt, RW.Meaning(mt, items))
    ensures var mt := RW.Match(m.Text(), |m.name|, nmatch, spans + [Span(-1, -1)]);
            && mt.WellFormed()
            && var so, eo := mt.pmatch[0].so, mt.pmatch[0].eo;
               && 0 <= so <= eo <= |m.name|
               && RewriteTo(m, nmatch, spans, RW.Print(items)) ==
                  Some(m.(name := m.name[..so] + RW.Meaning(mt, items) + m.name[eo..]))
  {
    hide RW.Rewritten, RW.Meaning, RW.Print, RW.Faithful;
    var mt := RW.Match(m.Text(), |m.name|, nmatch, spans + [Span(-1, -1)]);
    RW.RewriteMeansTemplate(mt, items);
    var so, eo, text := mt.pmatch[0].so, mt.pmatch[0].eo, RW.Meaning(mt, items);
    assert mt.Prefix() == m.name[..so] && mt.Suffix() == m.name[eo..];
    var name := m.name[..so] + text + m.name[eo..];
    assert RW.Result(mt, text).0[..|name|] == name;
  }

  /** Naming all groups of a match they divide up leaves a metric as it is. */
  lemma {:induction false} RewriteToItself(m: Metric, nmatch: nat, spans: seq<Span>, g: nat)
    requires var mt := RW.Match(m.Text(), |m.name|, nmatch, spans + [Span(-1, -1)]);
             mt.WellFormed() && RWL.Tiled(mt, g)
    requires m.data != "" && |m.Text()| < METRIC_BUFSIZ
    ensures RewriteTo(m, nmatch, spans, RW.Print(RWL.AllGroups(1, g))) == Some(m)
  {
    hide RW.Rewritten, RW.Print;
    var mt := RW.Match(m.Text(), |m.name|, nmatch, spans + [Span(-1, -1)]);
    assert mt.Data() == m.data && m.Text()[..|m.name|] == m.name;
    RWL.AllGroupsGiveItBack(mt, g);
  }

  // ---------------------------------------------------------------------
  // Destinations that go on
  // ---------------------------------------------------------------------

  /** A rewrite in front of other destinations: they see the new name. */
  lemma {:induction false} RewriteGoesOn(w: World, m: Metric, r: Route, template: string, dests: seq<Cluster>)
    requires Matched(w, m, r) && r.dests == [Cluster.Rewrite(template)] + dests
    ensures var spans := MatchRule(w, r.matcher, m).value;
            var m' := RewriteTo(m, r.matcher.nmatch, spans, template);
            ApplyRoute(w, m, r) == ApplyDests(w, if m'.Some? then m'.value else m, r, spans, dests)
  {
    hide MatchRule, RewriteTo;
    var spans := MatchRule(w, r.matcher, m).value;
    var m' := RewriteTo(m, r.matcher.nmatch, spans, template);
    FirstDest(w, m, r, spans);
    assert r.dests[1..] == dests && r.dests[0] == Cluster.Rewrite(template);
    ThenThen([], [], [], [], ApplyDests(w, if m'.Some? then m'.value else m, r, spans, dests));
  }

  /** A stub in front of other destinations: they get the metric as it was. */
  lemma {:induction false} StubGoesOn(w: World, m: Metric, r: Route, inner: seq<Route>, dests: seq<Cluster>)
    requires Matched(w, m, r) && r.dests == [Stub(inner)] + dests
    ensures var spans := MatchRule(w, r.matcher, m).value;
            var o := RouteAll(w, Stripped(m, r), inner);
            ApplyRoute(w, m, r) == Then(o.dels, o.subs, ApplyDests(w, m, r, spans, dests))
  {
    hide MatchRule, RouteAll, Stripped;
    FirstDest(w, m, r, MatchRule(w, r.matcher, m).value);
    assert r.dests[1..] == dests && r.dests[0] == Stub(inner);
  }

  /** Clusters of servers. */
  predicate ServerDest(d: Cluster) {
    d.FileLogIp? || d.Forward? || d.AnyOf? || d.SharedQueue? || d.ConsistentHash? || d.Blackhole?
  }

  ghost function AllTargets(w: World, r: Route, m: Metric, spans: seq<Span>, dests: seq<Cluster>): seq<Delivery> {
    if dests == [] then [] else Targets(w, r, m, spans, dests[0]) + AllTargets(w, r, m, spans, dests[1..])
  }

  lemma {:induction false} EachCluster(w: World, r: Route, m: Metric, spans: seq<Span>, dests: seq<Cluster>)
    requires forall d :: d in dests ==> ServerDest(d)
    ensures ApplyDests(w, m, r, spans, dests) == Outcome(m, AllTargets(w, r, m, spans, dests), [], r.stop)
    decreases |dests|
  {
    hide Targets;
    if dests != [] {
      assert dests[0] in dests && ServerDest(dests[0]);
      EachCluster(w, r, m, spans, dests[1..]);
    }
  }

  /** Main result: every cluster of a matching rule gets the metric, one after the other. */
  lemma {:induction false} EveryClusterIsServed(w: World, r: Route, m: Metric)
    requires Matched(w, m, r) && forall d :: d in r.dests ==> ServerDest(d)
    ensures var spans := MatchRule(w, r.matcher, m).value;
            ApplyRoute(w, m, r) == Outcome(m, AllTargets(w, r, m, spans, r.dests), [], r.stop)
  {
    hide MatchRule;
    EachCluster(w, r, m, MatchRule(w, r.matcher, m).value, r.dests);
  }

  // ---------------------------------------------------------------------
  // Slots
  // ---------------------------------------------------------------------

  /** A rule that uses every slot it asks for: it has no masquerade to fail and no empty cluster. */
  predicate UsesAll(r: Route) {
    && !r.stop && r.masq.None?
    && forall d :: d in r.dests ==>
         ServerDest(d) && (d.AnyOf? || d.SharedQueue? ==> d.servers != [])
  }

  lemma {:induction false} ClustersUseSlots(w: World, r: Route, m: Metric, spans: seq<Span>, dests: seq<Cluster>)
    requires RingsAnswer(w) && r.masq.None?
    requires forall d :: d in dests ==> ServerDest(d) && (d.AnyOf? || d.SharedQueue? ==> d.servers != [])
    ensures |AllTargets(w, r, m, spans, dests)| == DestSlots(dests)
    decreases |dests|
  {
    if dests != [] {
      assert dests[0] in dests;
      ClustersUseSlots(w, r, m, spans, dests[1..]);
    }
  }

  /** Main result: the slots counted are not too many either: a metric that all rules match takes each of them. */
  lemma {:induction false} SlotsAreUsed(w: World, m: Metric, rules: seq<Route>)
    requires RingsAnswer(w) && forall r :: r in rules ==> UsesAll(r) && Matched(w, m, r)
    ensures |RouteAll(w, m, rules).dels| == Slots(rules)
    decreases |rules|
  {
    hide MatchRule, ApplyRoute, DestSlots;
    if rules != [] {
      var r := rules[0];
      assert r in rules;
      EveryClusterIsServed(w, r, m);
      ClustersUseSlots(w, r, m, MatchRule(w, r.matcher, m).value, r.dests);
      SlotsAreUsed(w, m, rules[1..]);
    }
  }

  // ---------------------------------------------------------------------
  // Groups of a regular expression
  // ---------------------------------------------------------------------

  /** With groups the spans are the engine's; a rule without any has none, so it neither rewrites nor masquerades. */
  lemma {:induction false} SpansOfRegex(w: World, r: Matcher, m: Metric, template: string)
    requires r.kind == Regex && w.regexec(r.pattern, m.name).Some?
    ensures var spans := MatchRule(w, r, m);
            && spans.Some?
            && (r.nmatch > 0 ==> spans == w.regexec(r.pattern, m.name))
            && (r.nmatch == 0 ==> RewriteTo(m, r.nmatch, spans.value, template).None?)
  {
    var spans := MatchRule(w, r, m);
    assert ([] + [Span(-1, -1)])[0].so < 0;
  }
}
