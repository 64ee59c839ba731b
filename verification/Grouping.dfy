/**
 * What the optimiser's result looks like (`router_optimise`): the rules are
 * rearranged, none is lost, and rules with one tail between two barriers form
 * a group as soon as there are three.
 */
module Grouping {
  import opened Common
  import opened Patterns
  import opened Tails
  import opened Routing
  import opened RouteLaws
  import opened Optimiser

  predicate IsGroup(r: Route) {
    r.dests != [] && r.dests[0].Group?
  }

  /** A rule list with the groups replaced by their rules. */
  function Ungrouped(rules: seq<Route>): seq<Route> {
    if rules == [] then []
    else
      var r := rules[|rules| - 1];
      Ungrouped(rules[..|rules| - 1]) + if IsGroup(r) then r.dests[0].routes else [r]
  }

  lemma {:induction false} UngroupedAppend(a: seq<Route>, b: seq<Route>)
    ensures Ungrouped(a + b) == Ungrouped(a) + Ungrouped(b)
    decreases |b|
  {
    if b == [] {
      assert a + b == a;
    } else {
      var c, r := b[..|b| - 1], b[|b| - 1];
      assert (a + b)[..|a + b| - 1] == a + c && (a + b)[|a + b| - 1] == r;
      UngroupedAppend(a, c);
      var x := if IsGroup(r) then r.dests[0].routes else [r];
      assert Ungrouped(a) + Ungrouped(c) + x == Ungrouped(a) + (Ungrouped(c) + x);
    }
  }

  lemma {:induction false} PlainUngrouped(rules: seq<Route>)
    requires forall r :: r in rules ==> !IsGroup(r)
    ensures Ungrouped(rules) == rules
    decreases |rules|
  {
    if rules != [] {
      PlainUngrouped(rules[..|rules| - 1]);
      assert rules == rules[..|rules| - 1] + [rules[|rules| - 1]];
    }
  }

  // ---------------------------------------------------------------------
  // No rule is lost
  // ---------------------------------------------------------------------

  lemma {:induction false} PlacedKeepsRules(p: Pass, r: Route)
    requires p.Valid()
    ensures multiset(Flatten(Placed(p, r).blocks)) == multiset(Flatten(p.blocks)) + multiset{r}
  {
    hide Flatten, Placed, PartsFor;
    PlacedFlattened(p, r);
  }

  lemma {:induction false} CollectedKeepsRules(routes: seq<Route>)
    ensures multiset(Flatten(Collected(routes).blocks)) == multiset(routes)
    decreases |routes|
  {
    hide Flatten, Placed;
    if routes == [] {
      FlattenOne(Block(None, 0, 0, 0, []));
    } else {
      var init, r := routes[..|routes| - 1], routes[|routes| - 1];
      CollectedKeepsRules(init);
      PlacedKeepsRules(Collected(init), r);
      assert routes == init + [r];
    }
  }

  lemma {:induction false} UngroupedReduced(blocks: seq<Block>)
    requires forall r :: r in Flatten(blocks) ==> !IsGroup(r)
    ensures Ungrouped(Reduced(blocks)) == Flatten(blocks)
    decreases |blocks|
  {
    hide Flatten, Ungrouped;
    if blocks == [] {
      EmptyLists();
    } else {
      var init, b := blocks[..|blocks| - 1], blocks[|blocks| - 1];
      assert blocks == init + [b];
      FlattenAppend(init, [b]);
      FlattenOne(b);
      assert forall r :: r in b.routes ==> r in Flatten(blocks);
      assert forall r :: r in Flatten(init) ==> r in Flatten(blocks);
      UngroupedReduced(init);
      UngroupedAppend(Reduced(init), ReducedTo(b));
      UngroupedBlock(b);
    }
  }

  lemma {:induction false} EmptyLists()
    ensures Flatten([]) == [] && Ungrouped([]) == []
  {
  }

  lemma {:induction false} UngroupedBlock(b: Block)
    requires forall r :: r in b.routes ==> !IsGroup(r)
    ensures Ungrouped(ReducedTo(b)) == b.routes
  {
    hide Ungrouped;
    if ReducedTo(b) == b.routes {
      PlainUngrouped(b.routes);
    } else {
      UngroupedOne(GroupRoute(b.pattern.value, b.routes));
    }
  }

  lemma {:induction false} UngroupedOne(g: Route)
    requires IsGroup(g)
    ensures Ungrouped([g]) == g.dests[0].routes
  {
    assert [g][..0] == [];
  }

  /** Main result: the optimised list holds the same rules, each as often as before. */
  lemma {:induction false} OptimisedIsRearranged(routes: seq<Route>)
    requires forall r :: r in routes ==> !IsGroup(r)
    ensures multiset(Ungrouped(Optimised(routes))) == multiset(routes)
  {
    hide Flatten, Ungrouped, Collected, Reduced;
    var blocks := Collected(routes).blocks;
    CollectedKeepsRules(routes);
    forall r | r in Flatten(blocks) ensures !IsGroup(r) {
      assert r in multiset(Flatten(blocks));
    }
    UngroupedReduced(blocks);
  }

  // ---------------------------------------------------------------------
  // What is in a group
  // ---------------------------------------------------------------------

  /** A block with a tail holds rules of the list with that tail; `n` of them. */
  ghost predicate BlockOf(b: Block, routes: seq<Route>) {
    && b.refcnt == |b.routes|
    && (b.pattern.Some? ==> forall r :: r in b.routes ==> r in routes && Tailed(r, b.pattern.value))
  }

  lemma {:induction false} CollectedBlocks(routes: seq<Route>)
    ensures forall b :: b in Collected(routes).blocks ==> BlockOf(b, routes)
    decreases |routes|
  {
    hide HasTail, TailOf;
    if routes != [] {
      var init, r := routes[..|routes| - 1], routes[|routes| - 1];
      CollectedBlocks(init);
      assert routes == init + [r];
      var p := Collected(init);
      forall b | b in Placed(p, r).blocks ensures BlockOf(b, routes) {
        PlacedBlock(p, r, b);
        if b in p.blocks {
          assert BlockOf(b, init);
        }
      }
    }
  }

  /** A block after a rule is an old one, a grown one or a new one. */
  lemma {:induction false} PlacedBlock(p: Pass, r: Route, b: Block)
    requires p.Valid() && b in Placed(p, r).blocks
    ensures || b in p.blocks
            || b == Block(None, 0, 1, p.seqnr, [r])
            || (HasTail(r) && b == Started(r, TailOf(r.matcher.pattern).reversed, p.seqnr))
            || (exists a :: a in p.blocks && b == Grown(a, r) &&
                  HasTail(r) && a.pattern == Some(TailOf(r.matcher.pattern).reversed))
  {
    hide TailOf, Started, Grown;
    if HasTail(r) {
      TailedHasTail(r);
      var g := p.Open(TailOf(r.matcher.pattern).reversed);
      if g.Some? {
        assert p.blocks[g.value] in p.blocks;
      }
    }
  }

  lemma {:induction false} ReducedMember(blocks: seq<Block>, g: Route)
    ensures g in Reduced(blocks) <==> exists b :: b in blocks && g in ReducedTo(b)
    decreases |blocks|
  {
    hide ReducedTo;
    if blocks != [] {
      var init, b := blocks[..|blocks| - 1], blocks[|blocks| - 1];
      ReducedMember(init, g);
      assert blocks == init + [b];
      assert b in blocks;
    }
  }

  /** Main result: every group holds at least three rules of the list, all with the group's tail. */
  lemma {:induction false} GroupsShareATail(routes: seq<Route>, g: Route)
    requires forall r :: r in routes ==> !IsGroup(r)
    requires g in Optimised(routes) && IsGroup(g)
    ensures exists tail, rs: seq<Route> ::
              g == GroupRoute(tail, rs) && |rs| >= 3 && forall r :: r in rs ==> r in routes && Tailed(r, tail)
  {
    hide Collected, Reduced, Tailed, Flatten;
    var blocks := Collected(routes).blocks;
    ReducedMember(blocks, g);
    var b :| b in blocks && g in ReducedTo(b);
    CollectedBlocks(routes);
    assert BlockOf(b, routes);
    CollectedKeepsRules(routes);
    forall r | r in Flatten(blocks) ensures !IsGroup(r) {
      assert r in multiset(Flatten(blocks));
    }
    if g in b.routes {
      InFlatten(blocks, b, g);
    }
    assert g == GroupRoute(b.pattern.value, b.routes);
  }

  lemma {:induction false} InFlatten(blocks: seq<Block>, b: Block, r: Route)
    requires b in blocks && r in b.routes
    ensures r in Flatten(blocks)
  {
    hide Flatten;
    var k :| 0 <= k < |blocks| && blocks[k] == b;
    FlattenAt(blocks, k);
  }

  // ---------------------------------------------------------------------
  // When a group is formed
  // ---------------------------------------------------------------------

  function WithTail(rules: seq<Route>, tail: string): seq<Route> {
    if rules == [] then []
    else
      var r := rules[|rules| - 1];
      WithTail(rules[..|rules| - 1], tail) + if Tailed(r, tail) then [r] else []
  }

  lemma {:induction false} WithTailStep(rules: seq<Route>, b: nat, e: nat, tail: string)
    requires b <= e < |rules|
    ensures WithTail(rules[b..e + 1], tail) ==
            WithTail(rules[b..e], tail) + if Tailed(rules[e], tail) then [rules[e]] else []
  {
    assert rules[b..e + 1][..e - b] == rules[b..e];
  }

  lemma {:induction false} FindAppended(blocks: seq<Block>, k: nat, b: Block, tail: string)
    requires k <= |blocks|
    ensures FindFrom(blocks + [b], k, tail) ==
            if FindFrom(blocks, k, tail).Some? then FindFrom(blocks, k, tail)
            else if b.pattern == Some(tail) then Some(|blocks|) else None
  {
    hide FindFrom;
    var f, g := FindFrom(blocks, k, tail), FindFrom(blocks + [b], k, tail);
    assert f.Some? ==> (blocks + [b])[f.value].pattern == Some(tail);
    assert g.Some? && g.value < |blocks| ==> blocks[g.value].pattern == Some(tail);
    assert (blocks + [b])[|blocks|] == b;
  }

  lemma {:induction false} FindUpdated(blocks: seq<Block>, k: nat, g: nat, b: Block, tail: string)
    requires k <= |blocks| && g < |blocks| && b.pattern == blocks[g].pattern
    ensures FindFrom(blocks[g := b], k, tail) == FindFrom(blocks, k, tail)
  {
    hide FindFrom;
    var f, f' := FindFrom(blocks, k, tail), FindFrom(blocks[g := b], k, tail);
    assert forall j :: 0 <= j < |blocks| ==> blocks[g := b][j].pattern == blocks[j].pattern;
    if f.Some? {
      assert blocks[g := b][f.value].pattern == Some(tail);
    }
    if f'.Some? {
      assert blocks[f'.value].pattern == Some(tail);
    }
  }

  /** The open block of a tail holds exactly these rules; there is none for no rules. */
  ghost predicate OpenHolds(p: Pass, tail: string, rs: seq<Route>)
    requires p.Valid()
  {
    && p.start.Some?
    && match p.Open(tail)
       case None => rs == []
       case Some(k) => rs != [] && p.blocks[k].routes == rs && p.blocks[k].refcnt == |rs|
  }

  /** A rule with a tail and without stop extends its open block, and no other. */
  lemma {:induction false} PlacedInOpen(p: Pass, r: Route, tail: string, rs: seq<Route>)
    requires p.Valid() && HasTail(r) && !r.stop && OpenHolds(p, tail, rs)
    ensures OpenHolds(Placed(p, r), tail, rs + if Tailed(r, tail) then [r] else [])
  {
    hide HasTail, TailOf, FindFrom;
    TailedHasTail(r);
    var u := TailOf(r.matcher.pattern).reversed;
    var s := p.start.value;
    var g := p.Open(u);
    if g.None? {
      FindAppended(p.blocks, s, Started(r, u, p.seqnr), tail);
    } else {
      FindUpdated(p.blocks, s, g.value, Grown(p.blocks[g.value], r), tail);
    }
    assert rs + [] == rs;
  }

  ghost predicate Stretch(routes: seq<Route>, b: nat, e: nat) {
    && b <= e <= |routes| && (b == 0 || !HasTail(routes[b - 1]))
    && (forall i :: b <= i < e ==> HasTail(routes[i]))
    && (forall i :: b <= i < e - 1 ==> !routes[i].stop)
  }

  /** While a stretch lasts, every open block holds the rules of the stretch with its tail. */
  lemma {:induction false} StretchIsOpen(routes: seq<Route>, b: nat, e: nat, tail: string)
    requires Stretch(routes, b, e) && (e > b ==> !routes[e - 1].stop)
    ensures OpenHolds(Collected(routes[..e]), tail, WithTail(routes[b..e], tail))
    decreases e - b
  {
    hide HasTail, TailOf, Placed, FindFrom;
    if e == b {
      assert routes[b..e] == [];
      StretchBegins(routes, b, tail);
    } else {
      StretchIsOpen(routes, b, e - 1, tail);
      CollectedStep(routes, e - 1);
      WithTailStep(routes, b, e - 1, tail);
      PlacedInOpen(Collected(routes[..e - 1]), routes[e - 1], tail, WithTail(routes[b..e - 1], tail));
    }
  }

  lemma {:induction false} StretchBegins(routes: seq<Route>, b: nat, tail: string)
    requires b <= |routes| && (b == 0 || !HasTail(routes[b - 1]))
    ensures OpenHolds(Collected(routes[..b]), tail, [])
  {
    hide HasTail, TailOf, Collected;
    if b == 0 {
      NothingCollected(routes);
    } else {
      CollectedStep(routes, b - 1);
    }
  }

  /** Block `j` can no longer be joined. */
  ghost predicate Shut(p: Pass, j: nat) {
    j < |p.blocks| && (p.start.None? || j <= p.start.value)
  }

  lemma {:induction false} ShutStays(p: Pass, r: Route, j: nat)
    requires Barred(p) && Shut(p, j)
    ensures Shut(Placed(p, r), j) && Placed(p, r).blocks[j] == p.blocks[j]
  {
    hide HasTail, TailOf, FindFrom;
    if HasTail(r) {
      TailedHasTail(r);
      var g := p.Open(TailOf(r.matcher.pattern).reversed);
      assert g.Some? ==> g.value > p.start.value >= j;
    }
  }

  lemma {:induction false} ShutToTheEnd(routes: seq<Route>, n: nat, j: nat)
    requires n <= |routes| && Shut(Collected(routes[..n]), j)
    ensures j < |Collected(routes).blocks| && Collected(routes).blocks[j] == Collected(routes[..n]).blocks[j]
    decreases |routes| - n
  {
    hide Placed, Collected;
    if n == |routes| {
      assert routes[..n] == routes;
    } else {
      CollectedBarred(routes[..n]);
      CollectedStep(routes, n);
      ShutStays(Collected(routes[..n]), routes[n], j);
      ShutToTheEnd(routes, n + 1, j);
    }
  }

  /** The pass holds a finished block for these rules. */
  ghost predicate HasBlock(blocks: seq<Block>, j: nat, tail: string, rs: seq<Route>) {
    j < |blocks| && blocks[j].pattern == Some(tail) && blocks[j].routes == rs && blocks[j].refcnt == |rs|
  }

  /** A stop rule ends the stretch: its block and the others are shut. */
  lemma {:induction false} StopShuts(p: Pass, r: Route, tail: string, rs: seq<Route>) returns (j: nat)
    requires p.Valid() && HasTail(r) && r.stop && OpenHolds(p, tail, rs)
    requires rs != [] || Tailed(r, tail)
    ensures HasBlock(Placed(p, r).blocks, j, tail, rs + if Tailed(r, tail) then [r] else []) && Shut(Placed(p, r), j)
  {
    hide HasTail, TailOf, FindFrom;
    TailedHasTail(r);
    var u := TailOf(r.matcher.pattern).reversed;
    var g, o := p.Open(u), p.Open(tail);
    assert rs + [] == rs;
    if tail == u {
      j := |Placed(p, r).blocks| - 1;
      assert g.None? ==> [] + [r] == [r];
    } else {
      j := if g.Some? && g.value < o.value then o.value - 1 else o.value;
    }
  }

  /** The barrier behind a stretch shuts its blocks. */
  lemma {:induction false} BarrierShuts(p: Pass, r: Route, tail: string, rs: seq<Route>)
    requires p.Valid() && !HasTail(r) && OpenHolds(p, tail, rs) && rs != []
    ensures HasBlock(Placed(p, r).blocks, p.Open(tail).value, tail, rs) && Shut(Placed(p, r), p.Open(tail).value)
  {
    hide HasTail, TailOf;
  }

  lemma {:induction false} StretchIsCollected(routes: seq<Route>, b: nat, e: nat, tail: string) returns (j: nat)
    requires Stretch(routes, b, e) && (e == |routes| || !HasTail(routes[e]) || (e > b && routes[e - 1].stop))
    requires WithTail(routes[b..e], tail) != []
    ensures HasBlock(Collected(routes).blocks, j, tail, WithTail(routes[b..e], tail))
  {
    hide HasTail, TailOf, Placed, Collected, FindFrom, WithTail;
    if e > b && routes[e - 1].stop {
      StretchIsOpen(routes, b, e - 1, tail);
      CollectedStep(routes, e - 1);
      WithTailStep(routes, b, e - 1, tail);
      j := StopShuts(Collected(routes[..e - 1]), routes[e - 1], tail, WithTail(routes[b..e - 1], tail));
      ShutToTheEnd(routes, e, j);
    } else {
      StretchIsOpen(routes, b, e, tail);
      j := Collected(routes[..e]).Open(tail).value;
      if e == |routes| {
        assert routes[..e] == routes;
      } else {
        CollectedStep(routes, e);
        BarrierShuts(Collected(routes[..e]), routes[e], tail, WithTail(routes[b..e], tail));
        ShutToTheEnd(routes, e + 1, j);
      }
    }
  }

  /**
   * Main result: in a stretch of rules with tails, from a barrier or the start
   * to the next barrier, stop rule or end, the rules of each tail stand
   * together in their order; three or more of them are one group.
   */
  lemma {:induction false} GroupsAreFormed(routes: seq<Route>, b: nat, e: nat, tail: string)
    requires Stretch(routes, b, e) && (e == |routes| || !HasTail(routes[e]) || (e > b && routes[e - 1].stop))
    requires |WithTail(routes[b..e], tail)| >= 3
    ensures GroupRoute(tail, WithTail(routes[b..e], tail)) in Optimised(routes)
  {
    hide HasTail, TailOf, Collected, WithTail, Reduced;
    var blocks := Collected(routes).blocks;
    var j := StretchIsCollected(routes, b, e, tail);
    ReducedMember(blocks, GroupRoute(tail, WithTail(routes[b..e], tail)));
    assert blocks[j] in blocks;
  }
}
