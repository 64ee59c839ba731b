/**
 * A validate without destinations can stop the list, but the optimiser (`router_optimise`) moves it like any rule:
 * three ways in which a list then changes its meaning, and exactly which of these rules are safe in every list.
 */
module Checks {
  import opened Common
  import opened Patterns
  import opened Tails
  import opened Routing
  import opened RouteLaws
  import opened Optimiser

  /** Forwards names with `lit` in them. */
  function Sends(lit: string): Route {
    Route(Matcher(lit, Contains, lit, 0), None, false, [Forward([7])])
  }

  /** Stops names with `lit` in them when their data is not "1". */
  function ChecksOne(lit: string): Route {
    Route(Matcher(lit, Contains, lit, 0), None, false, [Validation(Matcher("^1$", Matches, "1", 0))])
  }

  function BadData(): Metric {
    Metric("", "aaabbb", " 2\n")
  }

  /** A rule that only validates. */
  predicate OnlyValidates(v: Route) {
    !v.stop && |v.dests| == 1 && v.dests[0].Validation?
  }

  /** ... and a metric it stops. */
  ghost predicate Stops(w: World, v: Route, m: Metric) {
    OnlyValidates(v) && MatchRule(w, v.matcher, m).Some? && MatchRule(w, v.dests[0].rule, DataOf(m)).None?
  }

  lemma {:induction false} CheckOutcome(w: World, v: Route, m: Metric)
    requires OnlyValidates(v)
    ensures ApplyRoute(w, m, v) == Outcome(m, [], [], Stops(w, v, m))
  {
    hide MatchRule, DataOf;
    assert v.dests[1..] == [];
    var spans := MatchRule(w, v.matcher, m);
    if spans.Some? {
      var s := ApplyDest(w, m, v, spans.value, v.dests[0], true);
      assert !s.over ==> ApplyDests(w, m, v, s.spans, v.dests[1..]) == Outcome(m, [], [], false);
    }
  }

  // ---------------------------------------------------------------------
  // Three rules, two tails
  // ---------------------------------------------------------------------

  lemma {:induction false} PlacedNew(p: Pass, r: Route, tail: string)
    requires p.Valid() && Tailed(r, tail) && !r.stop && p.Open(tail).None?
    ensures Placed(p, r) == Pass(p.blocks + [Started(r, tail, p.seqnr)], p.start, p.seqnr)
  {
    hide HasTail, TailOf;
  }

  lemma {:induction false} PlacedJoined(p: Pass, r: Route, tail: string, k: nat)
    requires p.Valid() && Tailed(r, tail) && p.Open(tail) == Some(k)
    ensures k < |p.blocks|
    ensures Placed(p, r).blocks == var b := Grown(p.blocks[k], r);
                                   if r.stop then p.blocks[..k] + p.blocks[k + 1..] + [b] else p.blocks[k := b]
  {
    hide HasTail, TailOf;
  }

  lemma {:induction false} FindFirst(blocks: seq<Block>, tail: string, g: Option<nat>)
    requires g.Some? ==> g.value < |blocks| && blocks[g.value].pattern == Some(tail)
    requires forall j :: 0 <= j < (if g.Some? then g.value else |blocks|) ==> blocks[j].pattern != Some(tail)
    ensures FindFrom(blocks, 0, tail) == g
  {
    hide FindFrom;
    var f := FindFrom(blocks, 0, tail);
  }

  lemma {:induction false} ReducedThree(a: Block, b: Block, c: Block)
    ensures Reduced([a, b, c]) == ReducedTo(a) + ReducedTo(b) + ReducedTo(c)
  {
    hide ReducedTo, Reduced;
    assert [a, b, c] == [a] + [b] + [c];
    ReducedAppend([a] + [b], [c]);
    ReducedAppend([a], [b]);
    ReducedOne(a);
    ReducedOne(b);
    ReducedOne(c);
  }

  lemma {:induction false} ReducedOne(b: Block)
    ensures Reduced([b]) == ReducedTo(b)
  {
    hide ReducedTo;
    assert [b][..0] == [] && [] + ReducedTo(b) == ReducedTo(b);
  }

  lemma {:induction false} OneCollected(x: Route, y: Route, z: Route, t: string)
    requires Tailed(x, t) && !x.stop
    ensures Collected([x, y, z][..1]) == Pass([Block(None, 0, 0, 0, []), Started(x, t, 1)], Some(0), 1)
  {
    hide Tailed, Collected, Placed, FindFrom;
    var rules, dummy := [x, y, z], Block(None, 0, 0, 0, []);
    NothingCollected(rules);
    CollectedStep(rules, 0);
    FindFirst([dummy], t, None);
    PlacedNew(Pass([dummy], Some(0), 1), x, t);
    assert [dummy] + [Started(x, t, 1)] == [dummy, Started(x, t, 1)];
  }

  /** The two rules in front, each in a block of its own. */
  lemma {:induction false} TwoCollected(x: Route, y: Route, z: Route, t: string, u: string)
    requires Tailed(x, t) && Tailed(y, u) && t != u && !x.stop && !y.stop
    ensures var blocks := [Block(None, 0, 0, 0, []), Started(x, t, 1), Started(y, u, 1)];
            Collected([x, y, z][..2]) == Pass(blocks, Some(0), 1)
  {
    hide Tailed, Collected, Placed, FindFrom;
    var rules, dummy := [x, y, z], Block(None, 0, 0, 0, []);
    OneCollected(x, y, z, t);
    CollectedStep(rules, 1);
    FindFirst([dummy, Started(x, t, 1)], u, None);
    PlacedNew(Pass([dummy, Started(x, t, 1)], Some(0), 1), y, u);
    assert [dummy, Started(x, t, 1)] + [Started(y, u, 1)] == [dummy, Started(x, t, 1), Started(y, u, 1)];
  }

  /** A third rule joins the first, in front of the second or, with a stop, behind it. */
  lemma {:induction false} ThreeRules(x: Route, y: Route, z: Route, t: string, u: string)
    requires Tailed(x, t) && Tailed(y, u) && Tailed(z, t) && t != u && !x.stop && !y.stop
    ensures Optimised([x, y, z]) == if z.stop then [y, x, z] else [x, z, y]
  {
    hide Tailed, Collected, Placed, FindFrom, Reduced;
    var rules, dummy := [x, y, z], Block(None, 0, 0, 0, []);
    var first, second := Started(x, t, 1), Started(y, u, 1);
    var both := Grown(first, z);
    var blocks := [dummy, first, second];
    TwoCollected(x, y, z, t, u);
    CollectedStep(rules, 2);
    assert rules[..3] == rules;
    FindFirst(blocks, t, Some(1));
    PlacedJoined(Pass(blocks, Some(0), 1), z, t, 1);
    assert blocks[1 := both] == [dummy, both, second];
    assert blocks[..1] + blocks[2..] + [both] == [dummy, second, both];
    ReducedThree(dummy, both, second);
    ReducedThree(dummy, second, both);
    assert [] + [x, z] + [y] == [x, z, y] && [] + [y] + [x, z] == [y, x, z];
  }

  // ---------------------------------------------------------------------
  // The three ways to change the meaning
  // ---------------------------------------------------------------------

  /** A rule that delivers the metric, with tail `u`, and a check with tail `t` that stops it. */
  ghost predicate Clash(w: World, m: Metric, a: Route, u: string, v: Route, t: string) {
    && Calm(a) && Tailed(a, u) && ApplyRoute(w, m, a).dels != []
    && Tailed(v, t) && t != u && Stops(w, v, m) && Proper(m)
  }

  ghost function Sent(w: World, m: Metric, rules: seq<Route>): nat {
    |RouteAll(w, m, rules).dels|
  }

  lemma {:induction false} SentCalm(w: World, m: Metric, a: Route, rest: seq<Route>)
    requires Calm(a)
    ensures Sent(w, m, [a] + rest) == |ApplyRoute(w, m, a).dels| + Sent(w, m, rest)
  {
    hide ApplyRoute, Calm;
    CalmRule(w, m, a);
    assert ([a] + rest)[0] == a && ([a] + rest)[1..] == rest;
  }

  lemma {:induction false} SentStopped(w: World, m: Metric, v: Route, rest: seq<Route>)
    requires Stops(w, v, m)
    ensures Sent(w, m, [v] + rest) == 0
  {
    hide ApplyRoute, MatchRule, DataOf;
    CheckOutcome(w, v, m);
    assert ([v] + rest)[0] == v;
  }

  lemma {:induction false} DifferentCounts(w: World, m: Metric, a: seq<Route>, b: seq<Route>)
    requires Proper(m) && Sent(w, m, a) != Sent(w, m, b)
    ensures !Equiv(w, a, b)
  {
    hide RouteAll;
    assert |multiset(RouteAll(w, m, a).dels)| != |multiset(RouteAll(w, m, b).dels)|;
  }

  lemma {:induction false} ClashParts(w: World, m: Metric, a: Route, u: string, v: Route, t: string)
    requires Clash(w, m, a, u, v, t)
    ensures !a.stop && !v.stop
  {
  }

  /** A rule overtakes the check: what was delivered once is delivered twice. */
  lemma {:induction false} CheckIsOvertaken(w: World, m: Metric, a: Route, u: string, v: Route, t: string)
    requires Clash(w, m, a, u, v, t)
    ensures Optimised([a, v, a]) == [a, a, v]
    ensures Sent(w, m, [a, v, a]) == |ApplyRoute(w, m, a).dels| > 0
    ensures Sent(w, m, [a, a, v]) == 2 * Sent(w, m, [a, v, a])
    ensures !Equiv(w, [a, v, a], Optimised([a, v, a]))
  {
    hide RouteAll, ApplyRoute, Optimised, Tailed, Stops, Calm, Sent;
    ClashParts(w, m, a, u, v, t);
    ThreeRules(a, v, a, u, t);
    SentCalm(w, m, a, [v, a]);
    SentStopped(w, m, v, [a]);
    SentCalm(w, m, a, [a, v]);
    SentCalm(w, m, a, [v]);
    SentStopped(w, m, v, []);
    assert [a] + [v, a] == [a, v, a] && [v] + [a] == [v, a];
    assert [a] + [a, v] == [a, a, v] && [a] + [v] == [a, v] && [v] + [] == [v];
    DifferentCounts(w, m, [a, v, a], [a, a, v]);
  }

  /** The check joins an earlier rule with its tail and overtakes another one, whose deliveries are lost. */
  lemma {:induction false} CheckOvertakes(w: World, m: Metric, c: Route, a: Route, u: string, v: Route, t: string)
    requires Clash(w, m, a, u, v, t) && Calm(c) && Tailed(c, t)
    ensures Optimised([c, a, v]) == [c, v, a]
    ensures Sent(w, m, [c, v, a]) == |ApplyRoute(w, m, c).dels|
    ensures Sent(w, m, [c, a, v]) ==
            |ApplyRoute(w, m, c).dels| + |ApplyRoute(w, m, a).dels| > |ApplyRoute(w, m, c).dels|
    ensures !Equiv(w, [c, a, v], Optimised([c, a, v]))
  {
    hide RouteAll, ApplyRoute, Optimised, Tailed, Stops, Sent;
    ClashParts(w, m, a, u, v, t);
    ThreeRules(c, a, v, t, u);
    SentCalm(w, m, c, [a, v]);
    SentCalm(w, m, a, [v]);
    SentStopped(w, m, v, []);
    SentCalm(w, m, c, [v, a]);
    SentStopped(w, m, v, [a]);
    assert [c] + [a, v] == [c, a, v] && [a] + [v] == [a, v] && [v] + [] == [v];
    assert [c] + [v, a] == [c, v, a] && [v] + [a] == [v, a];
    DifferentCounts(w, m, [c, a, v], [c, v, a]);
  }

  /** A stop rule takes a rule with its tail behind the check, and nothing is delivered any more. */
  lemma {:induction false} StopMovesBehindCheck(w: World, m: Metric, a: Route, s: Route, u: string, v: Route, t: string)
    requires Clash(w, m, a, u, v, t) && s.stop && Tailed(s, u)
    ensures Optimised([a, v, s]) == [v, a, s]
    ensures Sent(w, m, [a, v, s]) == |ApplyRoute(w, m, a).dels| > 0 == Sent(w, m, [v, a, s])
    ensures !Equiv(w, [a, v, s], Optimised([a, v, s]))
  {
    hide RouteAll, ApplyRoute, Optimised, Tailed, Stops, Calm, Sent;
    ClashParts(w, m, a, u, v, t);
    ThreeRules(a, v, s, u, t);
    SentCalm(w, m, a, [v, s]);
    SentStopped(w, m, v, [s]);
    SentStopped(w, m, v, [a, s]);
    assert [a] + [v, s] == [a, v, s] && [v] + [s] == [v, s] && [v] + [a, s] == [v, a, s];
    DifferentCounts(w, m, [a, v, s], [v, a, s]);
  }

  // ---------------------------------------------------------------------
  // Literal rules
  // ---------------------------------------------------------------------

  /** A literal that is its own tail. */
  predicate TailWord(lit: string) {
    3 <= |lit| < PBLOCK && forall c :: c in lit ==> TailChar(c)
  }

  lemma {:induction false} ReverseTwice(s: string)
    ensures Reverse(Reverse(s)) == s
  {
  }

  lemma {:induction false} ContainsNeeds(w: World, r: Route, tail: string)
    requires r.matcher.kind == Contains && r.matcher.strmatch == Reverse(tail)
    ensures Needs(w, r, tail)
  {
    hide StrStr, Reverse;
    forall m: Metric | MatchRule(w, r.matcher, m).Some? ensures Substring(Reverse(tail), m.name) {
      assert StrStr(m.name, r.matcher.strmatch).Some?;
    }
  }

  lemma {:induction false} WordPattern(lit: string)
    requires TailWord(lit)
    ensures TailOf(lit) == Tail(Reverse(lit)) && TailFits(lit) && '\0' !in lit
  {
    hide TailOf;
    WordIsItsTail(lit);
    LongWordsOverrun(lit);
  }

  lemma {:induction false} LiteralRule(w: World, r: Route, lit: string)
    requires TailWord(lit) && r.matcher.kind == Contains && r.matcher.pattern == r.matcher.strmatch == lit
    requires |r.dests| == 1 && (r.dests[0].Forward? || r.dests[0].Validation?)
    ensures Tailed(r, Reverse(lit)) && Configured(r) && TailSound(w, r)
  {
    hide Needs, Reverse, TailOf, TailFits, TailWord;
    WordPattern(lit);
    ReverseTwice(lit);
    ContainsNeeds(w, r, Reverse(lit));
  }

  lemma {:induction false} SendsOnce(w: World, m: Metric, lit: string)
    requires Substring(lit, m.name)
    ensures |ApplyRoute(w, m, Sends(lit)).dels| == 1
  {
    hide Substring;
    var a := Sends(lit);
    assert MatchRule(w, a.matcher, m).Some?;
    hide MatchRule;
    assert a.dests[1..] == [];
    assert ApplyDests(w, m, a, MatchRule(w, a.matcher, m).value, a.dests) ==
           Then(SendAll(w, [7], m.Text()), [], Outcome(m, [], [], false));
  }

  lemma {:induction false} SendsClashes(w: World, m: Metric, lit: string, v: Route, t: string)
    requires TailWord(lit) && Substring(lit, m.name) && Proper(m)
    requires Tailed(v, t) && t != Reverse(lit) && Stops(w, v, m)
    ensures Clash(w, m, Sends(lit), Reverse(lit), v, t) && |ApplyRoute(w, m, Sends(lit)).dels| == 1
  {
    hide Tailed, Stops, TailSound, Substring, Reverse, ApplyRoute, TailWord;
    LiteralRule(w, Sends(lit), lit);
    SendsOnce(w, m, lit);
  }

  // ---------------------------------------------------------------------
  // Which checks are safe
  // ---------------------------------------------------------------------

  function TailString(r: Route): string {
    if HasTail(r) then TailOf(r.matcher.pattern).reversed else ""
  }

  /** No metric the check stops has another tail literal in its name. */
  ghost predicate Secluded(w: World, v: Route) {
    forall m: Metric, lit: string ::
      Proper(m) && Stops(w, v, m) && TailWord(lit) && Reverse(lit) != TailString(v) ==> !Substring(lit, m.name)
  }

  /** A lone check as configured, with a sound tail. */
  ghost predicate SoundCheck(w: World, v: Route) {
    HasTail(v) && OnlyValidates(v) && Configured(v) && TailSound(w, v)
  }

  /** A list with sound tails all of whose lone checks are among `checks`. */
  ghost predicate ChecksAmong(w: World, routes: seq<Route>, checks: seq<Route>) {
    && AllSound(w, routes)
    && forall r :: r in routes ==> Configured(r) && (LoneCheck(r) ==> r in checks)
  }

  lemma {:induction false} TailIsWord(r: Route)
    requires Configured(r) && HasTail(r)
    ensures TailWord(Reverse(TailOf(r.matcher.pattern).reversed))
  {
    hide Strip;
  }

  /** A secluded check may change places with every rule of another tail. */
  lemma {:induction false} SecludedExchanges(w: World, v: Route, y: Route)
    requires HasTail(v) && OnlyValidates(v) && Secluded(w, v)
    requires Configured(y) && HasTail(y) && !y.stop && !LoneCheck(y) && TailSound(w, y)
    requires TailString(y) != TailString(v)
    ensures Exchangeable(w, v, y) && Exchangeable(w, y, v)
  {
    hide Configured, TailOf, Reverse, Exchangeable, Stops, Calm, LoneCheck, OnlyValidates, Needs, HasTail;
    TailedIsCalm(y);
    TailIsWord(y);
    CalmIsGroupable(y);
    CheckIsGroupable(v);
    var lit := Reverse(TailString(y));
    ReverseTwice(TailString(y));
    forall m: Metric | Proper(m)
      ensures Orderless(ApplyRoute(w, m, v), ApplyRoute(w, m, y))
      ensures Orderless(ApplyRoute(w, m, y), ApplyRoute(w, m, v))
    {
      CheckOutcome(w, v, m);
      CalmRule(w, m, y);
      if Stops(w, v, m) {
        assert !Substring(lit, m.name);
        UnmatchedDoesNothing(w, y, m);
      }
    }
    ExchangeableExactlyWhen(w, v, y);
    ExchangeableExactlyWhen(w, y, v);
  }

  /** Two checks may always change places: neither delivers anything. */
  lemma {:induction false} ChecksExchange(w: World, u: Route, v: Route)
    requires OnlyValidates(u) && OnlyValidates(v)
    ensures Exchangeable(w, u, v)
  {
    hide Exchangeable, Stops, OnlyValidates, ApplyRoute;
    CheckIsGroupable(u);
    CheckIsGroupable(v);
    forall m: Metric ensures Orderless(ApplyRoute(w, m, u), ApplyRoute(w, m, v)) {
      CheckOutcome(w, u, m);
      CheckOutcome(w, v, m);
    }
    ExchangeableExactlyWhen(w, u, v);
  }

  lemma {:induction false} CheckIsGroupable(v: Route)
    requires OnlyValidates(v)
    ensures Groupable(v)
  {
  }

  lemma {:induction false} UnmatchedDoesNothing(w: World, y: Route, m: Metric)
    requires Calm(y) && HasTail(y) && TailSound(w, y) && Proper(m)
    requires !Substring(Reverse(TailOf(y.matcher.pattern).reversed), m.name)
    ensures ApplyRoute(w, m, y) == Outcome(m, [], [], false)
  {
    hide MatchRule, TailOf, Reverse, Substring;
    assert Needs(w, y, TailOf(y.matcher.pattern).reversed);
    assert y.dests[0] in y.dests && CalmDest(y.dests[0]);
  }

  ghost predicate AllSecluded(w: World, checks: seq<Route>) {
    forall v :: v in checks ==> Secluded(w, v)
  }

  lemma {:induction false} SecludedPair(w: World, checks: seq<Route>, x: Route, y: Route)
    requires forall v :: v in checks ==> SoundCheck(w, v)
    requires AllSecluded(w, checks) && MayMeet(x, y)
    requires Configured(x) && TailSound(w, x) && (LoneCheck(x) ==> x in checks)
    requires Configured(y) && TailSound(w, y) && (LoneCheck(y) ==> y in checks)
    ensures Exchangeable(w, x, y)
  {
    hide Exchangeable, Configured, TailOf, LoneCheck, TailSound, Secluded, OnlyValidates, HasTail;
    if LoneCheck(x) && LoneCheck(y) {
      ChecksExchange(w, x, y);
    } else if LoneCheck(x) {
      SecludedExchanges(w, x, y);
    } else if LoneCheck(y) {
      SecludedExchanges(w, y, x);
    } else {
      UncheckedExchange(w, x, y);
    }
  }

  lemma {:induction false} SecludedIsSafe(w: World, checks: seq<Route>, routes: seq<Route>)
    requires forall v :: v in checks ==> SoundCheck(w, v)
    requires AllSecluded(w, checks) && ChecksAmong(w, routes, checks)
    ensures Equiv(w, routes, Optimised(routes))
  {
    hide Equiv, Optimised, Exchangeable, Configured, LoneCheck, TailSound, Secluded, OnlyValidates, HasTail, MayMeet;
    forall x, y | x in routes && y in routes && MayMeet(x, y) ensures Exchangeable(w, x, y) {
      SecludedPair(w, checks, x, y);
    }
    PairsAreHarmless(w, routes);
    OptimisedMeans(w, routes);
  }

  lemma {:induction false} NotSecludedIsUnsafe(w: World, checks: seq<Route>, v: Route, m: Metric, lit: string)
    requires v in checks && SoundCheck(w, v) && Proper(m) && Stops(w, v, m)
    requires TailWord(lit) && Reverse(lit) != TailString(v) && Substring(lit, m.name)
    ensures var rules := [Sends(lit), v, Sends(lit)];
            ChecksAmong(w, rules, checks) && !Equiv(w, rules, Optimised(rules))
  {
    hide Configured, TailSound, Stops, Substring, Equiv, Optimised, Reverse, TailWord, HasTail;
    var a := Sends(lit);
    LiteralRule(w, a, lit);
    SendsClashes(w, m, lit, v, TailString(v));
    CheckIsOvertaken(w, m, a, Reverse(lit), v, TailString(v));
  }

  /**
   * Main result: for any lone checks, every list without others keeps its
   * meaning exactly when no metric one of them stops has a tail literal other
   * than that check's own in its name.
   */
  lemma {:induction false} ChecksAreSafeExactlyWhen(w: World, checks: seq<Route>)
    requires forall v :: v in checks ==> SoundCheck(w, v)
    ensures (forall routes: seq<Route> :: ChecksAmong(w, routes, checks) ==> Equiv(w, routes, Optimised(routes))) <==>
            AllSecluded(w, checks)
  {
    hide OnlyValidates, Configured, TailSound, Stops, Substring, Equiv, Optimised, Reverse, TailWord, ChecksAmong,
         Proper, HasTail;
    if AllSecluded(w, checks) {
      forall routes: seq<Route> | ChecksAmong(w, routes, checks) ensures Equiv(w, routes, Optimised(routes)) {
        SecludedIsSafe(w, checks, routes);
      }
    } else {
      var v :| v in checks && !Secluded(w, v);
      var m: Metric, lit: string :|
        Proper(m) && Stops(w, v, m) && TailWord(lit) && Reverse(lit) != TailString(v) && Substring(lit, m.name);
      NotSecludedIsUnsafe(w, checks, v, m, lit);
    }
  }

  // ---------------------------------------------------------------------
  // One input for each way
  // ---------------------------------------------------------------------

  lemma {:induction false} BadDataStops(w: World, lit: string)
    requires lit == "aaa" || lit == "bbb"
    ensures Stops(w, ChecksOne(lit), BadData()) && Substring(lit, BadData().name) && Proper(BadData())
  {
    var m := BadData();
    assert OccursAt("aaa", m.name, 0) && OccursAt("bbb", m.name, 3);
    assert Substring(lit, m.name) && DataOf(m).name == "2";
  }

  lemma {:induction false} Words()
    ensures TailWord("aaa") && TailWord("bbb") && Reverse("aaa") == "aaa" && Reverse("bbb") == "bbb"
  {
  }

  /** The rules of the inputs below: their tails are sound. */
  lemma {:induction false} InputRules(w: World, rules: seq<Route>)
    requires forall r :: r in rules ==>
      r.matcher == Sends("aaa").matcher || r.matcher == Sends("bbb").matcher
    requires forall r :: r in rules ==> |r.dests| == 1 && (r.dests[0].Forward? || r.dests[0].Validation?)
    ensures AllSound(w, rules)
    ensures forall r :: r in rules ==> Tailed(r, r.matcher.pattern)
  {
    hide Tailed, TailSound, TailWord, Reverse;
    Words();
    forall r | r in rules ensures TailSound(w, r) && Tailed(r, r.matcher.pattern) {
      LiteralRule(w, r, r.matcher.pattern);
    }
  }

  /** A rule overtakes the check, in every world. */
  lemma {:induction false} BadDataIsDeliveredTwice(w: World)
    ensures var a, v := Sends("aaa"), ChecksOne("bbb");
            && AllSound(w, [a, v, a]) && Proper(BadData())
            && Optimised([a, v, a]) == [a, a, v]
            && Sent(w, BadData(), [a, v, a]) == 1 && Sent(w, BadData(), [a, a, v]) == 2
  {
    hide Optimised, Sent, Clash, Stops, Tailed, TailSound, ApplyRoute, TailWord, Reverse, Proper, Substring;
    var m, a, v := BadData(), Sends("aaa"), ChecksOne("bbb");
    Words();
    InputRules(w, [a, v, a]);
    assert v in [a, v, a];
    BadDataStops(w, "aaa");
    BadDataStops(w, "bbb");
    SendsClashes(w, m, "aaa", v, "bbb");
    CheckIsOvertaken(w, m, a, "aaa", v, "bbb");
  }

  /** The check overtakes a rule, in every world. */
  lemma {:induction false} BadDataIsDeliveredOnce(w: World)
    ensures var a, b, v := Sends("aaa"), Sends("bbb"), ChecksOne("aaa");
            && AllSound(w, [a, b, v]) && Proper(BadData())
            && Optimised([a, b, v]) == [a, v, b]
            && Sent(w, BadData(), [a, b, v]) == 2 && Sent(w, BadData(), [a, v, b]) == 1
  {
    hide Optimised, Sent, Clash, Stops, Tailed, TailSound, ApplyRoute, TailWord, Reverse, Proper, Substring;
    var m, a, b, v := BadData(), Sends("aaa"), Sends("bbb"), ChecksOne("aaa");
    Words();
    InputRules(w, [a, b, v]);
    assert v in [a, b, v] && a in [a, b, v];
    BadDataStops(w, "aaa");
    BadDataStops(w, "bbb");
    SendsClashes(w, m, "bbb", v, "aaa");
    CheckOvertakes(w, m, a, b, "bbb", v, "aaa");
    SendsOnce(w, m, "aaa");
  }

  /** A rule is moved behind the check, in every world. */
  lemma {:induction false} BadDataIsLost(w: World)
    ensures var a, v, s := Sends("aaa"), ChecksOne("bbb"), Sends("aaa").(stop := true);
            && AllSound(w, [a, v, s]) && Proper(BadData())
            && Optimised([a, v, s]) == [v, a, s]
            && Sent(w, BadData(), [a, v, s]) == 1 && Sent(w, BadData(), [v, a, s]) == 0
  {
    hide Optimised, Sent, Clash, Stops, Tailed, TailSound, ApplyRoute, TailWord, Reverse, Proper, Substring;
    var m, a, v, s := BadData(), Sends("aaa"), ChecksOne("bbb"), Sends("aaa").(stop := true);
    Words();
    InputRules(w, [a, v, s]);
    assert v in [a, v, s] && s in [a, v, s];
    BadDataStops(w, "aaa");
    BadDataStops(w, "bbb");
    SendsClashes(w, m, "aaa", v, "bbb");
    StopMovesBehindCheck(w, m, a, s, "aaa", v, "bbb");
  }

  /** A rule that starts a block, or joins the last one, passes no other. */
  lemma {:induction false} NothingIsPassed(p: Pass, r: Route, tail: string)
    requires p.Valid() && Tailed(r, tail)
    requires p.Open(tail).Some? ==> p.Open(tail).value == |p.blocks| - 1
    ensures MovesNoCheck(p, r)
  {
    hide TailOf, FindFrom, Flatten, LoneCheck;
    var n := |p.blocks|;
    assert p.blocks[n..] == [];
    NothingFlattened();
  }

  /** A check in front of the others stays there: the list keeps its meaning. */
  lemma {:induction false} CheckInFrontStays(v: Route, t: string, a: Route, u: string)
    requires Tailed(v, t) && Tailed(a, u) && t != u && !v.stop && !a.stop
    ensures ChecksStay([v, a, a])
  {
    hide Tailed, Collected, FindFrom, MovesNoCheck;
    var rules, dummy := [v, a, a], Block(None, 0, 0, 0, []);
    var first, second := Started(v, t, 1), Started(a, u, 1);
    NothingCollected(rules);
    FindFirst([dummy], t, None);
    NothingIsPassed(Collected(rules[..0]), v, t);
    OneCollected(v, a, a, t);
    FindFirst([dummy, first], u, None);
    NothingIsPassed(Collected(rules[..1]), a, u);
    TwoCollected(v, a, a, t, u);
    FindFirst([dummy, first, second], u, Some(2));
    NothingIsPassed(Collected(rules[..2]), a, u);
  }
}
