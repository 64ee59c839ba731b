/**
 * The rule interpreter (`router_route_intern`): what a rule list does to a
 * metric.  Regular expressions, hash functions and output formats are supplied
 * from outside.
 */
module Routing {
  import opened Common
  import opened Patterns
  import opened Tails
  import RW = Rewrite

  datatype Matcher = Matcher(pattern: string, kind: MatchType, strmatch: string, nmatch: nat)

  datatype Cluster =
    | Blackhole
    | FileLogIp(servers: seq<nat>)
    | Forward(servers: seq<nat>)                  // FORWARD and FILELOG
    | AnyOf(servers: seq<nat>)
    | SharedQueue(servers: seq<nat>)              // FAILOVER and LB
    | ConsistentHash(ring: nat, replicas: nat)    // CARBON_CH, FNV1A_CH and JUMP_CH
    | Aggregation(aggregator: nat)
    | Rewrite(replacement: string)
    | Stub(routes: seq<Route>)                    // AGGRSTUB and STATSTUB
    | Validation(rule: Matcher)
    | Group(tail: string, routes: seq<Route>)     // the tail is stored in reverse

  datatype Route = Route(matcher: Matcher, masq: Option<string>, stop: bool, dests: seq<Cluster>)

  /** What the interpreter calls out to. */
  datatype World = World(
    regexec: (string, string) -> Option<seq<Span>>,   // pattern, name
    hash: string -> nat,
    nodes: (nat, nat, string) -> seq<nat>,            // ring, replicas, key
    format: (nat, string) -> string,                  // server, metric
    formatIp: string -> string,
    stale: (string, string) -> bool)                  // a group's verdict on an empty name

  /**
   * The metric buffer, split at the `firstspace` cursor, and the bytes in front
   * of it.
   */
  datatype Metric = Metric(before: string, name: string, data: string) {
    function Text(): string {
      name + data
    }

    function InMemory(): Memory {
      Memory(before, name, data)
    }
  }

  datatype Delivery = Delivery(server: nat, payload: string)

  datatype Submission = Submission(aggregator: nat, metric: Metric, nmatch: nat, spans: seq<Span>)

  datatype Outcome = Outcome(metric: Metric, dels: seq<Delivery>, subs: seq<Submission>, stop: bool)

  /** The spans a rule records when it matches (none for `*` and for regexes without groups). */
  function MatchRule(w: World, r: Matcher, m: Metric): Option<seq<Span>> {
    match r.kind
    case MatchAll => Some([])
    case Regex =>
      var spans := w.regexec(r.pattern, m.name);
      if spans.Some? && r.nmatch == 0 then Some([]) else spans
    case _ =>
      var span := MatchString(r.kind, r.strmatch, m.InMemory());
      if span.Some? then Some([span.value]) else None
  }

  /** The validation rule looks at the data, between the space and the newline. */
  function DataOf(m: Metric): Metric {
    var n := |m.data|;
    if n >= 2 then Metric(m.before + m.name + m.data[..1], m.data[1..n - 1], m.data[n - 1..])
    else Metric(m.before + m.name + m.data, "", "")
  }

  /** A rewrite gives the metric a new name and leaves its data alone. */
  function RewriteTo(m: Metric, nmatch: nat, spans: seq<Span>, template: string): Option<Metric> {
    var mt := RW.Match(m.Text(), |m.name|, nmatch, spans + [Span(-1, -1)]);
    if !mt.WellFormed() then None
    else
      var r := RW.Rewritten(mt, template);
      if r.Some? then Some(m.(name := r.value.0[..r.value.1])) else None
  }

  function SendAll(w: World, servers: seq<nat>, text: string): (d: seq<Delivery>)
    ensures |d| == |servers|
  {
    seq(|servers|, i requires 0 <= i < |servers| => Delivery(servers[i], w.format(servers[i], text)))
  }

  function LogAll(w: World, servers: seq<nat>, text: string): (d: seq<Delivery>)
    ensures |d| == |servers|
  {
    seq(|servers|, i requires 0 <= i < |servers| => Delivery(servers[i], w.formatIp(text)))
  }

  /** The server a name is queued at, always the same one. */
  function Anyone(w: World, servers: seq<nat>, name: string): seq<nat> {
    if servers == [] then [] else [servers[w.hash(name) % |servers|]]
  }

  /** The servers a destination that only forwards picks. */
  function Targets(w: World, r: Route, m: Metric, spans: seq<Span>, d: Cluster): seq<Delivery> {
    match d
    case FileLogIp(servers) => LogAll(w, servers, m.Text())
    case Forward(servers) => SendAll(w, servers, m.Text())
    case AnyOf(servers) =>
      SendAll(w, Anyone(w, servers, m.name), m.Text())
    case SharedQueue(servers) => SendAll(w, if servers == [] then [] else [servers[0]], m.Text())
    case ConsistentHash(ring, replicas) =>
      if r.masq.None? then SendAll(w, w.nodes(ring, replicas, m.name), m.Text())
      else
        var key := RewriteTo(m, r.matcher.nmatch, spans, r.masq.value);
        if key.None? then [] else SendAll(w, w.nodes(ring, replicas, key.value.name), m.Text())
    case _ => []
  }

  ghost function Then(first: seq<Delivery>, subs: seq<Submission>, o: Outcome): Outcome {
    o.(dels := first + o.dels, subs := subs + o.subs)
  }

  lemma {:induction false} ThenThen(a: seq<Delivery>, s: seq<Submission>, b: seq<Delivery>, t: seq<Submission>,
                                    o: Outcome)
    ensures Then(a, s, Then(b, t, o)) == Then(a + b, s + t, o)
    ensures Then([], [], o) == o
  {
    assert a + (b + o.dels) == a + b + o.dels;
    assert s + (t + o.subs) == s + t + o.subs;
    assert [] + o.dels == o.dels && [] + o.subs == o.subs;
  }

  /** What one destination does; `over` when the ones behind it are skipped. */
  datatype DestStep = DestStep(
    metric: Metric, dels: seq<Delivery>, subs: seq<Submission>, spans: seq<Span>, over: bool, stop: bool)

  /** The metric a stub hands on: its own pattern is stripped off the front. */
  function Stripped(m: Metric, r: Route): Metric {
    var k := |r.matcher.pattern|;
    if k <= |m.name| then Metric(m.before + m.name[..k], m.name[k..], m.data)
    else Metric(m.before + m.name, "", m.data)
  }

  /** A later match overwrites the spans it sets and leaves the others. */
  function Overlaid(spans: seq<Span>, recent: seq<Span>): seq<Span> {
    if |recent| < |spans| then recent + spans[|recent|..] else recent
  }

  ghost function ApplyDest(w: World, m: Metric, r: Route, spans: seq<Span>, d: Cluster, last: bool): DestStep
    decreases d, 1
  {
    match d
    case Aggregation(a) =>
      // the remaining destinations belong to the stub
      DestStep(m, [], [Submission(a, m, r.matcher.nmatch, spans)], spans, true, r.stop)
    case Rewrite(template) =>
      var m' := RewriteTo(m, r.matcher.nmatch, spans, template);
      DestStep(if m'.Some? then m'.value else m, [], [], spans, false, r.stop)
    case Stub(routes) =>
      var inner := RouteAll(w, Stripped(m, r), routes);
      // inner rules only forward, so the caller's metric stays as it is
      DestStep(m, inner.dels, inner.subs, spans, false, r.stop)
    case Validation(rule) =>
      var ok := MatchRule(w, rule, DataOf(m));
      if ok.Some? then DestStep(m, [], [], Overlaid(spans, ok.value), false, r.stop)
      else DestStep(m, [], [], spans, true, r.stop || last)
    case _ => DestStep(m, Targets(w, r, m, spans, d), [], spans, false, r.stop)
  }

  /** The loop over the destinations of a rule that matched. */
  ghost function ApplyDests(w: World, m: Metric, r: Route, spans: seq<Span>, dests: seq<Cluster>): Outcome
    decreases dests, 0
  {
    if dests == [] then Outcome(m, [], [], r.stop)
    else
      var s := ApplyDest(w, m, r, spans, dests[0], |dests| == 1);
      if s.over then Outcome(s.metric, s.dels, s.subs, s.stop)
      else Then(s.dels, s.subs, ApplyDests(w, s.metric, r, s.spans, dests[1..]))
  }

  ghost predicate GateOpen(w: World, m: Metric, tail: string) {
    if m.name == "" then w.stale(tail, m.Text()) else Substring(Reverse(tail), m.name)
  }

  ghost function ApplyRoute(w: World, m: Metric, r: Route): Outcome
    decreases r, 1
  {
    if r.dests != [] && r.dests[0].Group? then
      if GateOpen(w, m, r.dests[0].tail) then
        var inner := RouteAll(w, m, r.dests[0].routes);
        // the caller keeps its cursor; no rule of a group moves it
        inner.(metric := m)
      else Outcome(m, [], [], false)
    else
      var spans := MatchRule(w, r.matcher, m);
      if spans.Some? then ApplyDests(w, m, r, spans.value, r.dests) else Outcome(m, [], [], false)
  }

  /** The whole rule list, until a rule asks to stop. */
  ghost function RouteAll(w: World, m: Metric, rules: seq<Route>): Outcome
    decreases rules, 2
  {
    if rules == [] then Outcome(m, [], [], false)
    else
      var o := ApplyRoute(w, m, rules[0]);
      if o.stop then o else Then(o.dels, o.subs, RouteAll(w, o.metric, rules[1..]))
  }

  // ---------------------------------------------------------------------
  // Destination slots
  // ---------------------------------------------------------------------

  /** The slots a destination asks for, whether or not it ends up using them. */
  function SlotsOf(d: Cluster): nat
    decreases d, 1
  {
    match d
    case FileLogIp(servers) => |servers|
    case Forward(servers) => |servers|
    case AnyOf(_) => 1
    case SharedQueue(_) => 1
    case ConsistentHash(_, replicas) => replicas
    case Stub(routes) => Slots(routes)
    case Group(_, routes) => Slots(routes)
    case _ => 0
  }

  function DestSlots(dests: seq<Cluster>): nat
    decreases dests, 0
  {
    if dests == [] then 0 else SlotsOf(dests[0]) + DestSlots(dests[1..])
  }

  function Slots(rules: seq<Route>): nat
    decreases rules, 2
  {
    if rules == [] then 0 else DestSlots(rules[0].dests) + Slots(rules[1..])
  }

  /** Rings hand out as many nodes as they are asked for. */
  ghost predicate RingsAnswer(w: World) {
    forall ring, n, key :: |w.nodes(ring, n, key)| == n
  }

  // ---------------------------------------------------------------------
  // The loops of the source, with the destination array and its limit
  // ---------------------------------------------------------------------

  // `full` says that the slots ran out, `hidden` that they did inside a stub,
  // whose result the source does not look at.

  /**
   * How an array filled up to `ret` relates to what should be added to `ret0`:
   * everything if slots never ran out, else what comes first of it.
   */
  ghost predicate Filled(ret0: seq<Delivery>, ret: seq<Delivery>, dels: seq<Delivery>, full: bool, hidden: bool,
                         retsize: nat)
  {
    && |ret| <= retsize && ret0 <= ret
    && (!hidden && full ==> ret <= ret0 + dels)
    && (!hidden && !full ==> ret == ret0 + dels)
  }

  lemma {:induction false} FilledFurther(ret0: seq<Delivery>, was: seq<Delivery>, ret: seq<Delivery>,
                                         some: seq<Delivery>, more: seq<Delivery>, rest: seq<Delivery>)
    requires ret0 <= was && was == ret0 + some
    ensures was <= ret ==> ret0 <= ret
    ensures ret <= was + more ==> ret <= ret0 + (some + (more + rest))
    ensures was + more == ret0 + (some + more)
  {
    assert ret0 + (some + (more + rest)) == was + more + rest;
  }

  method DestLoop(w: World, m0: Metric, r: Route, spans0: seq<Span>, dests: seq<Cluster>, ret0: seq<Delivery>,
                  retsize: nat)
    returns (m: Metric, ret: seq<Delivery>, subs: seq<Submission>, stop: bool, full: bool, ghost hidden: bool)
    requires RingsAnswer(w) && |ret0| <= retsize
    ensures Filled(ret0, ret, ApplyDests(w, m0, r, spans0, dests).dels, full, hidden, retsize) && (full ==> stop)
    ensures !full && !hidden ==> Outcome(m, ret, subs, stop) == Then(ret0, [], ApplyDests(w, m0, r, spans0, dests))
    ensures |ret0| + DestSlots(dests) <= retsize ==> !full && !hidden
    decreases dests, 0
  {
    hide ApplyDest, SlotsOf;
    m, ret, subs, stop, full, hidden := m0, ret0, [], r.stop, false, false;
    var spans, i := spans0, 0;
    ghost var goal := ApplyDests(w, m0, r, spans0, dests);
    assert dests[0..] == dests && [] + goal.dels == goal.dels && [] + goal.subs == goal.subs;
    ghost var dels: seq<Delivery> := [];
    while i < |dests|
      invariant i <= |dests| && |ret| <= retsize && ret0 <= ret && stop == r.stop && !full
      invariant !hidden ==> ret == ret0 + dels && goal == Then(dels, subs, ApplyDests(w, m, r, spans, dests[i..]))
      invariant |ret0| + DestSlots(dests) <= retsize ==> |ret| + DestSlots(dests[i..]) <= retsize && !hidden
    {
      assert dests[i..][0] == dests[i] && dests[i..][1..] == dests[i + 1..];
      ghost var s := ApplyDest(w, m, r, spans, dests[i], i + 1 == |dests|);
      ApplyDestSlots(w, m, r, spans, dests[i], i + 1 == |dests|);
      ThenThen(dels, subs, s.dels, s.subs, ApplyDests(w, s.metric, r, s.spans, dests[i + 1..]));
      ghost var was, lost := ret, false;
      ghost var tail := if s.over then [] else ApplyDests(w, s.metric, r, s.spans, dests[i + 1..]).dels;
      var more, over;
      m, ret, more, spans, over, stop, full, lost := DestOne(w, m, r, spans, dests[i], i + 1 == |dests|, ret, retsize);
      if !hidden {
        FilledFurther(ret0, was, ret, dels, s.dels, tail);
        assert s.dels + [] == s.dels;
      }
      hidden := hidden || lost;
      subs, dels := subs + more, dels + s.dels;
      if over {
        return;
      }
      i := i + 1;
    }
    assert dests[i..] == [] && dels + [] == dels && subs + [] == subs;
  }

  /** The switch on the kind of destination. */
  method DestOne(w: World, m0: Metric, r: Route, spans0: seq<Span>, d: Cluster, last: bool, ret0: seq<Delivery>,
                 retsize: nat)
    returns (m: Metric, ret: seq<Delivery>, subs: seq<Submission>, spans: seq<Span>, over: bool, stop: bool, full: bool,
             ghost hidden: bool)
    requires RingsAnswer(w) && |ret0| <= retsize
    ensures Filled(ret0, ret, ApplyDest(w, m0, r, spans0, d, last).dels, full, hidden, retsize)
    ensures (full ==> stop && over) && (!over ==> stop == r.stop)
    ensures !full && !hidden ==>
              var s := ApplyDest(w, m0, r, spans0, d, last);
              DestStep(m, s.dels, subs, spans, over, stop) == s
    ensures |ret0| + SlotsOf(d) <= retsize ==> !full && !hidden
    decreases d, 1
  {
    m, ret, subs, spans, over, stop, full, hidden := m0, ret0, [], spans0, false, r.stop, false, false;
    match d {
      case Aggregation(a) =>
        subs := [Submission(a, m, r.matcher.nmatch, spans)];
        over := true;
      case Rewrite(template) =>
        var m' := RewriteTo(m, r.matcher.nmatch, spans, template);
        if m'.Some? {
          m := m'.value;
        }
      case Stub(routes) =>
        var im, istop, ifull;
        im, ret, subs, istop, ifull, hidden := RouteIntern(w, Stripped(m, r), routes, ret, retsize);
        hidden := hidden || ifull;
        ThenThen([], [], [], [], RouteAll(w, Stripped(m, r), routes));
      case Validation(rule) =>
        var ok := MatchRule(w, rule, DataOf(m));
        if ok.Some? {
          spans := Overlaid(spans, ok.value);
        } else {
          over, stop := true, stop || last;
        }
      case Group(_, _) =>
      case _ =>
        ret, full := Deliver(w, m, r, spans, d, ret, retsize);
        if full {
          over, stop := true, true;
        }
    }
  }

  /** The servers of some deliveries, in order. */
  function Recipients(dels: seq<Delivery>): seq<nat> {
    seq(|dels|, i requires 0 <= i < |dels| => dels[i].server)
  }

  /**
   * What each kind of cluster promises of its deliveries: plain forwards and
   * logs reach every server once and in order, a shared queue is the first
   * server's, any_of reaches one member, a ring as many as there are replicas
   * or, when a masquerade does not expand, none; each in its server's format.
   */
  ghost predicate Lawful(w: World, r: Route, m: Metric, d: Cluster, dels: seq<Delivery>) {
    && (forall x :: x in dels ==>
        x.payload == if d.FileLogIp? then w.formatIp(m.Text()) else w.format(x.server, m.Text()))
    && match d
       case FileLogIp(servers) => Recipients(dels) == servers
       case Forward(servers) => Recipients(dels) == servers
       case SharedQueue(servers) => Recipients(dels) == if servers == [] then [] else [servers[0]]
       case AnyOf(servers) =>
         if servers == [] then dels == []
         else |dels| == 1 && dels[0].server in servers && dels[0].server == servers[w.hash(m.name) % |servers|]
       case ConsistentHash(_, replicas) => |dels| == replicas || (r.masq.Some? && dels == [])
       case _ => dels == []
  }

  lemma {:induction false} TargetsAreLawful(w: World, r: Route, m: Metric, spans: seq<Span>, d: Cluster)
    requires RingsAnswer(w)
    ensures Lawful(w, r, m, d, Targets(w, r, m, spans, d))
  {
    hide RewriteTo;
  }

  /** The loop over the servers of a plain cluster: a slot for each, as long as there are any. */
  method SendEach(w: World, m: Metric, servers: seq<nat>, ip: bool, ret0: seq<Delivery>, retsize: nat)
    returns (ret: seq<Delivery>, full: bool)
    requires |ret0| <= retsize
    ensures var all := if ip then LogAll(w, servers, m.Text()) else SendAll(w, servers, m.Text());
            Filled(ret0, ret, all, full, false, retsize)
    ensures full <==> |ret0| + |servers| > retsize
    ensures full ==> |ret| == retsize
  {
    ret, full := ret0, false;
    ghost var all := if ip then LogAll(w, servers, m.Text()) else SendAll(w, servers, m.Text());
    var i := 0;
    while i < |servers|
      invariant i <= |servers| && ret == ret0 + all[..i] && |ret| <= retsize
    {
      if |ret| + 1 > retsize {
        return ret, true;
      }
      ret := ret + [Delivery(servers[i], if ip then w.formatIp(m.Text()) else w.format(servers[i], m.Text()))];
      i := i + 1;
    }
    assert all[..i] == all;
  }

  /** A cluster that needs all its slots at once; none is taken when there are too few. */
  method SendAtOnce(w: World, m: Metric, servers: seq<nat>, need: nat, ret0: seq<Delivery>, retsize: nat)
    returns (ret: seq<Delivery>, full: bool)
    requires |ret0| <= retsize && |servers| <= need
    ensures Filled(ret0, ret, SendAll(w, servers, m.Text()), full, false, retsize)
    ensures full <==> |ret0| + need > retsize
  {
    if |ret0| + need > retsize {
      return ret0, true;
    }
    ret, full := SendEach(w, m, servers, false, ret0, retsize);
  }

  /** The part of the switch for clusters of servers: each takes its slots, if there are enough. */
  method Deliver(w: World, m: Metric, r: Route, spans: seq<Span>, d: Cluster, ret0: seq<Delivery>, retsize: nat)
    returns (ret: seq<Delivery>, full: bool)
    requires RingsAnswer(w) && |ret0| <= retsize
    ensures Filled(ret0, ret, Targets(w, r, m, spans, d), full, false, retsize)
    ensures !full ==> Lawful(w, r, m, d, ret[|ret0|..])
    ensures full <==> !d.Stub? && !d.Group? && |ret0| + SlotsOf(d) > retsize
    ensures full && (d.FileLogIp? || d.Forward?) ==> |ret| == retsize
  {
    hide RewriteTo, SendAll, LogAll, Lawful;
    ret, full := ret0, false;
    TargetsAreLawful(w, r, m, spans, d);
    assert ret0 + [] == ret0;
    match d {
      case Blackhole =>
      case FileLogIp(servers) =>
        ret, full := SendEach(w, m, servers, true, ret0, retsize);
      case Forward(servers) =>
        ret, full := SendEach(w, m, servers, false, ret0, retsize);
      case AnyOf(servers) =>
        ret, full := SendAtOnce(w, m, Anyone(w, servers, m.name), 1, ret0, retsize);
      case SharedQueue(servers) =>
        ret, full := SendAtOnce(w, m, if servers == [] then [] else [servers[0]], 1, ret0, retsize);
      case ConsistentHash(ring, replicas) =>
        var key := if r.masq.None? then Some(m) else RewriteTo(m, r.matcher.nmatch, spans, r.masq.value);
        var nodes := if key.None? then [] else w.nodes(ring, replicas, key.value.name);
        ret, full := SendAtOnce(w, m, nodes, replicas, ret0, retsize);
      case Aggregation(_) =>
      case Rewrite(_) =>
      case Stub(_) =>
      case Validation(_) =>
      case Group(_, _) =>
    }
    assert !full ==> ret[|ret0|..] == Targets(w, r, m, spans, d);
  }

  lemma {:induction false} TargetsWithin(w: World, r: Route, m: Metric, spans: seq<Span>, d: Cluster)
    requires RingsAnswer(w)
    ensures |Targets(w, r, m, spans, d)| <= SlotsOf(d)
    ensures (d.FileLogIp? || d.Forward?) ==> |Targets(w, r, m, spans, d)| == SlotsOf(d)
  {
  }

  method RouteIntern(w: World, m0: Metric, rules: seq<Route>, ret0: seq<Delivery>, retsize: nat)
    returns (m: Metric, ret: seq<Delivery>, subs: seq<Submission>, stop: bool, full: bool, ghost hidden: bool)
    requires RingsAnswer(w) && |ret0| <= retsize
    ensures Filled(ret0, ret, RouteAll(w, m0, rules).dels, full, hidden, retsize) && (full ==> stop)
    ensures !full && !hidden ==> Outcome(m, ret, subs, stop) == Then(ret0, [], RouteAll(w, m0, rules))
    ensures |ret0| + Slots(rules) <= retsize ==> !full && !hidden
    decreases rules, 2
  {
    hide ApplyRoute, DestSlots;
    m, ret, subs, stop, full, hidden := m0, ret0, [], false, false, false;
    var i := 0;
    ghost var goal := RouteAll(w, m0, rules);
    assert rules[0..] == rules && [] + goal.dels == goal.dels && [] + goal.subs == goal.subs;
    ghost var dels: seq<Delivery> := [];
    while i < |rules|
      invariant i <= |rules| && |ret| <= retsize && ret0 <= ret && !stop && !full
      invariant !hidden ==> ret == ret0 + dels && goal == Then(dels, subs, RouteAll(w, m, rules[i..]))
      invariant |ret0| + Slots(rules) <= retsize ==> |ret| + Slots(rules[i..]) <= retsize && !hidden
    {
      var r := rules[i];
      assert rules[i..][0] == r && rules[i..][1..] == rules[i + 1..];
      ghost var o := ApplyRoute(w, m, r);
      ApplyRouteSlots(w, m, r);
      ThenThen(dels, subs, o.dels, o.subs, RouteAll(w, o.metric, rules[i + 1..]));
      ghost var was, lost, tail := ret, false, if o.stop then [] else RouteAll(w, o.metric, rules[i + 1..]).dels;
      var more;
      m, ret, more, stop, full, lost := RouteOne(w, m, r, ret, retsize);
      if !hidden {
        FilledFurther(ret0, was, ret, dels, o.dels, tail);
        assert o.dels + [] == o.dels && [] + o.subs == o.subs;
      }
      hidden := hidden || lost;
      subs, dels := subs + more, dels + o.dels;
      if stop {
        return;
      }
      i := i + 1;
    }
    assert rules[i..] == [] && dels + [] == dels && subs + [] == subs;
  }

  /** One turn of the loop over the rules: a group's search, or a rule's match. */
  method RouteOne(w: World, m0: Metric, r: Route, ret0: seq<Delivery>, retsize: nat)
    returns (m: Metric, ret: seq<Delivery>, subs: seq<Submission>, stop: bool, full: bool, ghost hidden: bool)
    requires RingsAnswer(w) && |ret0| <= retsize
    ensures Filled(ret0, ret, ApplyRoute(w, m0, r).dels, full, hidden, retsize) && (full ==> stop)
    ensures !full && !hidden ==> Outcome(m, ret, subs, stop) == Then(ret0, [], ApplyRoute(w, m0, r))
    ensures |ret0| + DestSlots(r.dests) <= retsize ==> !full && !hidden
    decreases r, 1
  {
    hide ApplyDests, RouteAll, MatchRule, Slots;
    m, ret, subs, stop, full, hidden := m0, ret0, [], false, false, false;
    ThenThen(ret0, [], [], [], ApplyRoute(w, m0, r));
    assert ret0 + [] == ret0;
    if r.dests != [] && r.dests[0].Group? {
      GroupSlots(r);
      var open := w.stale(r.dests[0].tail, m.Text());
      if m.name != "" {
        open := GroupAccepts(m.name, r.dests[0].tail);
      }
      if open {
        var im;
        im, ret, subs, stop, full, hidden := RouteIntern(w, m0, r.dests[0].routes, ret, retsize);
      }
    } else {
      var spans := MatchRule(w, r.matcher, m);
      if spans.Some? {
        m, ret, subs, stop, full, hidden := DestLoop(w, m, r, spans.value, r.dests, ret, retsize);
      }
    }
  }

  lemma {:induction false} GroupSlots(r: Route)
    requires r.dests != [] && r.dests[0].Group?
    ensures DestSlots(r.dests) >= Slots(r.dests[0].routes)
  {
  }

  // A run never needs more slots than its rules ask for.

  lemma {:induction false} ApplyDestSlots(w: World, m: Metric, r: Route, spans: seq<Span>, d: Cluster, last: bool)
    requires RingsAnswer(w)
    ensures |ApplyDest(w, m, r, spans, d, last).dels| <= SlotsOf(d)
    decreases d, 1
  {
    if d.Stub? {
      RouteAllSlots(w, Stripped(m, r), d.routes);
    } else {
      TargetsWithin(w, r, m, spans, d);
    }
  }

  lemma {:induction false} ApplyDestsSlots(w: World, m: Metric, r: Route, spans: seq<Span>, dests: seq<Cluster>)
    requires RingsAnswer(w)
    ensures |ApplyDests(w, m, r, spans, dests).dels| <= DestSlots(dests)
    decreases dests, 0
  {
    if dests != [] {
      var s := ApplyDest(w, m, r, spans, dests[0], |dests| == 1);
      ApplyDestSlots(w, m, r, spans, dests[0], |dests| == 1);
      if !s.over {
        ApplyDestsSlots(w, s.metric, r, s.spans, dests[1..]);
      }
    }
  }

  lemma {:induction false} ApplyRouteSlots(w: World, m: Metric, r: Route)
    requires RingsAnswer(w)
    ensures |ApplyRoute(w, m, r).dels| <= DestSlots(r.dests)
    decreases r, 1
  {
    if r.dests != [] && r.dests[0].Group? {
      RouteAllSlots(w, m, r.dests[0].routes);
    } else {
      var spans := MatchRule(w, r.matcher, m);
      if spans.Some? {
        ApplyDestsSlots(w, m, r, spans.value, r.dests);
      }
    }
  }

  lemma {:induction false} RouteAllSlots(w: World, m: Metric, rules: seq<Route>)
    requires RingsAnswer(w)
    ensures |RouteAll(w, m, rules).dels| <= Slots(rules)
    decreases rules, 2
  {
    if rules != [] {
      var o := ApplyRoute(w, m, rules[0]);
      ApplyRouteSlots(w, m, rules[0]);
      if !o.stop {
        RouteAllSlots(w, o.metric, rules[1..]);
      }
    }
  }
}
