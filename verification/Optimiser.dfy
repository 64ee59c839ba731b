/**
 * The rule optimiser (`router_optimise`): collects rules with the same tail into blocks, reorders these and turns
 * the large ones into groups. When the optimised list routes every metric like the original.
 */
module Optimiser {
  import opened Common
  import opened Patterns
  import opened Tails
  import opened Routing
  import opened RouteLaws

  /** A rule as the configuration reader builds it. */
  predicate Configured(r: Route) {
    && r.dests != []
    && '\0' !in r.matcher.pattern && TailFits(r.matcher.pattern)
    && (forall d :: d in r.dests ==>
          !d.Group? && (d.Rewrite? ==> |r.dests| == 1) && (d.Stub? ==> r.stop))
  }

  /** Rules with a usable tail literal; all others stay on their own. */
  predicate HasTail(r: Route) {
    && r.matcher.kind != MatchAll && r.dests != [] && !r.dests[0].Rewrite?
    && TailOf(r.matcher.pattern).Tail?
  }

  predicate Tailed(r: Route, tail: string) {
    HasTail(r) && TailOf(r.matcher.pattern).reversed == tail
  }

  lemma {:induction false} TailedHasTail(r: Route)
    requires HasTail(r)
    ensures TailOf(r.matcher.pattern).Tail?
  {
  }

  /** A validate without destinations: the optimiser moves it like any rule, but it can stop the list. */
  predicate LoneCheck(r: Route) {
    HasTail(r) && !r.stop && r.dests[|r.dests| - 1].Validation?
  }

  /** A rule with a tail matches only names that contain it. */
  ghost predicate TailSound(w: World, r: Route) {
    HasTail(r) ==> Needs(w, r, TailOf(r.matcher.pattern).reversed)
  }

  ghost predicate AllSound(w: World, routes: seq<Route>) {
    forall r :: r in routes ==> TailSound(w, r)
  }

  datatype Block = Block(pattern: Option<string>, hash: nat, refcnt: nat, seqnr: nat, routes: seq<Route>)

  ghost function Flatten(blocks: seq<Block>): seq<Route> {
    if blocks == [] then [] else blocks[0].routes + Flatten(blocks[1..])
  }

  ghost predicate ValidBlock(b: Block, all: seq<Route>) {
    && b.refcnt == |b.routes|
    && (forall r :: r in b.routes ==> r in all && Configured(r))
    && match b.pattern
       case None => b.hash == 0 && b.refcnt <= 1
       case Some(tail) =>
         && tail != "" && b.hash == CharSum(tail)
         && (forall r :: r in b.routes ==> HasTail(r) && TailOf(r.matcher.pattern).reversed == tail)
  }

  /** The blocks behind position `s` can still be joined: without stop, of the current number, one for each tail. */
  ghost predicate OpenBehind(blocks: seq<Block>, s: nat, seqnr: nat) {
    && s < |blocks|
    && (forall k :: s < k < |blocks| ==> blocks[k].seqnr == seqnr && OpenBlock(blocks[k]))
    && (forall j, k :: s < j < k < |blocks| ==> blocks[j].pattern != blocks[k].pattern)
  }

  ghost predicate OpenBlock(b: Block) {
    b.pattern.Some? && forall r :: r in b.routes ==> !r.stop
  }

  ghost predicate Numbered(blocks: seq<Block>, seqnr: nat) {
    && (forall k :: 0 < k < |blocks| ==> 1 <= blocks[k].seqnr <= seqnr)
    && (forall k, l :: 0 < k < l < |blocks| ==> blocks[k].seqnr <= blocks[l].seqnr)
  }

  // ---------------------------------------------------------------------
  // What the list operations do to the flattened list
  // ---------------------------------------------------------------------

  lemma {:induction false} FlattenAppend(a: seq<Block>, b: seq<Block>)
    ensures Flatten(a + b) == Flatten(a) + Flatten(b)
    decreases |a|
  {
    if a == [] {
      assert a + b == b;
    } else {
      assert (a + b)[1..] == a[1..] + b;
      FlattenAppend(a[1..], b);
    }
  }

  lemma {:induction false} FlattenOne(b: Block)
    ensures Flatten([b]) == b.routes
  {
    assert [b][1..] == [];
  }

  lemma {:induction false} FlattenAt(blocks: seq<Block>, g: nat)
    requires g < |blocks|
    ensures Flatten(blocks) == Flatten(blocks[..g]) + blocks[g].routes + Flatten(blocks[g + 1..])
  {
    assert blocks == blocks[..g] + ([blocks[g]] + blocks[g + 1..]);
    FlattenAppend(blocks[..g], [blocks[g]] + blocks[g + 1..]);
    FlattenAppend([blocks[g]], blocks[g + 1..]);
    FlattenOne(blocks[g]);
  }

  lemma {:induction false} SlotsAppend(a: seq<Route>, b: seq<Route>)
    ensures Slots(a + b) == Slots(a) + Slots(b)
    decreases |a|
  {
    if a == [] {
      assert a + b == b;
    } else {
      assert (a + b)[1..] == a[1..] + b;
      SlotsAppend(a[1..], b);
    }
  }

  lemma {:induction false} TailedIsCalm(r: Route)
    requires Configured(r) && HasTail(r) && !r.stop && !LoneCheck(r)
    ensures Calm(r)
  {
    assert |r.dests| == 1 ==> forall d :: d in r.dests ==> d == r.dests[0];
  }

  lemma {:induction false} CharSumPositive(s: string)
    requires s != "" && forall c :: c in s ==> c != '\0'
    ensures CharSum(s) > 0
  {
    assert s[|s| - 1] in s;
  }

  // ---------------------------------------------------------------------
  // First pass: rules into blocks
  // ---------------------------------------------------------------------

  /** The first block from `k` on with this tail. */
  function FindFrom(blocks: seq<Block>, k: nat, tail: string): (g: Option<nat>)
    requires k <= |blocks|
    ensures g.Some? ==> k <= g.value < |blocks| && blocks[g.value].pattern == Some(tail)
    ensures forall j :: k <= j < (if g.Some? then g.value else |blocks|) ==> blocks[j].pattern != Some(tail)
    decreases |blocks| - k
  {
    if k == |blocks| then None
    else if blocks[k].pattern == Some(tail) then Some(k)
    else FindFrom(blocks, k + 1, tail)
  }

  /** The state of the first pass: the blocks, the barrier no rule may join across, the current number. */
  datatype Pass = Pass(blocks: seq<Block>, start: Option<nat>, seqnr: nat) {
    predicate Valid() { start.Some? ==> start.value < |blocks| }

    function Open(tail: string): Option<nat>
      requires Valid()
    {
      if start.None? then None else FindFrom(blocks, start.value, tail)
    }
  }

  /** The block a rule with a new tail starts. */
  function Started(r: Route, tail: string, seqnr: nat): Block {
    Block(Some(tail), CharSum(tail), 1, seqnr, [r])
  }

  /** A block with one more rule. */
  function Grown(b: Block, r: Route): Block {
    b.(refcnt := b.refcnt + 1, routes := b.routes + [r])
  }

  /** What the pass does with one rule. */
  function Placed(p: Pass, r: Route): (q: Pass)
    requires p.Valid()
    ensures q.Valid()
  {
    if !HasTail(r) then Pass(p.blocks + [Block(None, 0, 1, p.seqnr, [r])], Some(|p.blocks|), p.seqnr + 1)
    else
      var tail := TailOf(r.matcher.pattern).reversed;
      var start, seqnr := if r.stop then None else p.start, if r.stop then p.seqnr + 1 else p.seqnr;
      match p.Open(tail)
      case None => Pass(p.blocks + [Started(r, tail, p.seqnr)], start, seqnr)
      case Some(k) =>
        var b := Grown(p.blocks[k], r);
        Pass(if r.stop then p.blocks[..k] + p.blocks[k + 1..] + [b] else p.blocks[k := b], start, seqnr)
  }

  function Collected(routes: seq<Route>): (p: Pass)
    ensures p.Valid()
    decreases |routes|
  {
    if routes == [] then Pass([Block(None, 0, 0, 0, [])], Some(0), 1)
    else Placed(Collected(routes[..|routes| - 1]), routes[|routes| - 1])
  }

  /** Blocks of three rules and more become groups. */
  function ReducedTo(b: Block): seq<Route> {
    if b.refcnt < 3 || b.pattern.None? then b.routes else [GroupRoute(b.pattern.value, b.routes)]
  }

  function Reduced(blocks: seq<Block>): seq<Route> {
    if blocks == [] then [] else Reduced(blocks[..|blocks| - 1]) + ReducedTo(blocks[|blocks| - 1])
  }

  function Optimised(routes: seq<Route>): seq<Route> {
    Reduced(Collected(routes).blocks)
  }

  /** The barrier is a block without a tail. */
  predicate Barred(p: Pass) {
    p.Valid() && (p.start.Some? ==> p.blocks[p.start.value].pattern.None?)
  }

  lemma {:induction false} PlacedBarred(p: Pass, r: Route)
    requires Barred(p)
    ensures Barred(Placed(p, r))
  {
    hide TailOf;
    if HasTail(r) {
      TailedHasTail(r);
    }
  }

  lemma {:induction false} CollectedBarred(routes: seq<Route>)
    ensures Barred(Collected(routes))
    decreases |routes|
  {
    hide Placed;
    if routes != [] {
      CollectedBarred(routes[..|routes| - 1]);
      PlacedBarred(Collected(routes[..|routes| - 1]), routes[|routes| - 1]);
    }
  }

  /** The search for an open block with this tail, starting behind `start`. */
  method FindBlock(blocks: seq<Block>, start: Option<nat>, hash: nat, tail: string, ghost all: seq<Route>)
    returns (g: Option<nat>)
    requires start.Some? ==> start.value < |blocks| && blocks[start.value].pattern.None?
    requires AllValid(blocks, all)
    requires hash == CharSum(tail) > 0
    ensures g == Pass(blocks, start, 0).Open(tail)
    ensures g.Some? ==> start.Some? && start.value < g.value
  {
    if start.None? {
      return None;
    }
    var k := start.value;
    while k < |blocks|
      invariant start.value <= k <= |blocks|
      invariant FindFrom(blocks, start.value, tail) == FindFrom(blocks, k, tail)
    {
      assert ValidBlock(blocks[k], all);
      // equal hashes imply that there is a pattern to compare
      if blocks[k].hash == hash && blocks[k].pattern.value == tail {
        return Some(k);
      }
      k := k + 1;
    }
    return None;
  }

  /** The shape of the block list between two rules. */
  ghost predicate Shape(all: seq<Route>, p: Pass) {
    && p.seqnr >= 1 && |p.blocks| > 0 && p.blocks[0].refcnt == 0
    && AllValid(p.blocks, all)
    && Numbered(p.blocks, p.seqnr)
    && (p.start.Some? ==> OpenBehind(p.blocks, p.start.value, p.seqnr) && p.blocks[p.start.value].pattern.None?)
  }

  ghost predicate AllValid(blocks: seq<Block>, all: seq<Route>) {
    forall k :: 0 <= k < |blocks| ==> ValidBlock(blocks[k], all)
  }

  lemma {:induction false} AddedGroup(all: seq<Route>, p: Pass, r: Route, tail: string)
    requires Shape(all, p) && r in all && Configured(r) && Tailed(r, tail) && p.Open(tail).None?
    ensures Shape(all, Placed(p, r))
  {
    hide TailOf, CharSum, FindFrom;
    var b := Started(r, tail, p.seqnr);
    TailIsProper(r.matcher.pattern);
    assert ValidBlock(b, all);
    assert Placed(p, r).blocks == p.blocks + [b];
    assert forall k :: 0 <= k < |p.blocks| ==> (p.blocks + [b])[k] == p.blocks[k];
  }

  lemma {:induction false} GrownIsValid(all: seq<Route>, b: Block, r: Route)
    requires ValidBlock(b, all) && r in all && Configured(r) && HasTail(r)
    requires b.pattern == Some(TailOf(r.matcher.pattern).reversed)
    ensures ValidBlock(Grown(b, r), all)
  {
    hide TailOf, CharSum, Configured;
  }

  lemma {:induction false} JoinedCalm(all: seq<Route>, p: Pass, r: Route, tail: string, k: nat)
    requires Shape(all, p) && r in all && Configured(r) && Tailed(r, tail) && !r.stop
    requires p.start.Some? && p.start.value < k < |p.blocks| && p.blocks[k].pattern == Some(tail)
    ensures Shape(all, p.(blocks := p.blocks[k := Grown(p.blocks[k], r)]))
  {
    hide TailOf, CharSum, FindFrom, Configured, HasTail, ValidBlock;
    var b := Grown(p.blocks[k], r);
    var next := p.blocks[k := b];
    TailedHasTail(r);
    GrownIsValid(all, p.blocks[k], r);
    assert OpenBlock(p.blocks[k]) && OpenBlock(b);
    assert forall j :: 0 <= j < |next| ==> next[j].pattern == p.blocks[j].pattern && next[j].seqnr == p.blocks[j].seqnr;
    assert k > 0;
  }

  lemma {:induction false} JoinedStop(all: seq<Route>, p: Pass, r: Route, tail: string, k: nat)
    requires Shape(all, p) && r in all && Configured(r) && Tailed(r, tail)
    requires p.start.Some? && p.start.value < k < |p.blocks| && p.blocks[k].pattern == Some(tail)
    ensures Shape(all, Pass(p.blocks[..k] + p.blocks[k + 1..] + [Grown(p.blocks[k], r)], None, p.seqnr + 1))
  {
    hide TailOf, CharSum, FindFrom, Configured, HasTail, ValidBlock;
    var b := Grown(p.blocks[k], r);
    var next := p.blocks[..k] + p.blocks[k + 1..] + [b];
    TailedHasTail(r);
    GrownIsValid(all, p.blocks[k], r);
    assert forall j :: 0 <= j < k ==> next[j] == p.blocks[j];
    assert forall j :: k <= j < |p.blocks| - 1 ==> next[j] == p.blocks[j + 1];
    assert next[|p.blocks| - 1] == b;
  }

  lemma {:induction false} AddedSingle(all: seq<Route>, p: Pass, r: Route)
    requires Shape(all, p) && r in all && Configured(r) && !HasTail(r)
    ensures Shape(all, Placed(p, r))
  {
    hide TailOf, CharSum, Configured, HasTail;
    assert ValidBlock(Block(None, 0, 1, p.seqnr, [r]), all);
  }

  lemma {:induction false} FoundBehindStart(all: seq<Route>, p: Pass, tail: string)
    requires Shape(all, p)
    ensures p.Valid()
    ensures p.Open(tail).Some? ==> p.start.Some? && p.start.value < p.Open(tail).value < |p.blocks| &&
                                   p.blocks[p.Open(tail).value].pattern == Some(tail)
  {
    hide FindFrom;
  }

  lemma {:induction false} PlacedShape(all: seq<Route>, p: Pass, r: Route)
    requires Shape(all, p) && r in all && Configured(r)
    ensures Shape(all, Placed(p, r))
  {
    hide TailOf, CharSum, Configured, FindFrom;
    if !HasTail(r) {
      AddedSingle(all, p, r);
    } else {
      hide Shape;
      TailedHasTail(r);
      var tail := TailOf(r.matcher.pattern).reversed;
      var g := p.Open(tail);
      FoundBehindStart(all, p, tail);
      if g.None? {
        AddedGroup(all, p, r, tail);
      } else if r.stop {
        JoinedStop(all, p, r, tail, g.value);
      } else {
        JoinedCalm(all, p, r, tail, g.value);
      }
    }
  }

  lemma {:induction false} CollectedShape(routes: seq<Route>, n: nat)
    requires n <= |routes| && forall r :: r in routes ==> Configured(r)
    ensures Shape(routes, Collected(routes[..n]))
    decreases n
  {
    hide Placed, Configured;
    if n == 0 {
      NothingCollected(routes);
      NothingHasShape(routes);
    } else {
      CollectedShape(routes, n - 1);
      CollectedStep(routes, n - 1);
      assert routes[n - 1] in routes;
      PlacedShape(routes, Collected(routes[..n - 1]), routes[n - 1]);
    }
  }

  lemma {:induction false} NothingHasShape(all: seq<Route>)
    ensures Shape(all, Pass([Block(None, 0, 0, 0, [])], Some(0), 1))
  {
  }

  /** A rule with a tail: into an open block with that tail, or into a new one. */
  method PlaceTailed(blocks0: seq<Block>, start0: Option<nat>, seqnr0: nat, r: Route, tail: string, hash: nat,
                     ghost all: seq<Route>)
    returns (blocks: seq<Block>, start: Option<nat>, seqnr: nat, moved: bool)
    requires Shape(all, Pass(blocks0, start0, seqnr0)) && Tailed(r, tail)
    requires hash == CharSum(tail)
    ensures Pass(blocks, start, seqnr) == Placed(Pass(blocks0, start0, seqnr0), r)
    ensures moved ==> start0.Some? && start.None?
    ensures !moved && start0.None? ==> start.None?
  {
    hide TailOf, CharSum, AllValid, Numbered;
    blocks, start, seqnr, moved := blocks0, start0, seqnr0, false;
    TailIsProper(r.matcher.pattern);
    var g := FindBlock(blocks, start, hash, tail, all);
    if g.None? {
      blocks := blocks + [Started(r, tail, seqnr)];
      if r.stop {
        start, seqnr := None, seqnr + 1;
      }
    } else {
      var k := g.value;
      if r.stop {
        blocks := blocks[..k] + blocks[k + 1..] + [Grown(blocks[k], r)];
        start, seqnr, moved := None, seqnr + 1, true;
      } else {
        blocks := blocks[k := Grown(blocks[k], r)];
      }
    }
  }

  method BuildBlocks(routes: seq<Route>) returns (blocks: seq<Block>, seqnr: nat)
    requires forall r :: r in routes ==> Configured(r)
    ensures blocks == Collected(routes).blocks && seqnr == Collected(routes).seqnr
  {
    hide Shape, Placed, Collected, TailOf, Configured;
    blocks, seqnr := [Block(None, 0, 0, 0, [])], 1;
    var start: Option<nat> := Some(0);
    var rlast: Option<Route> := None;
    var i := 0;
    NothingCollected(routes);
    while i < |routes|
      invariant i <= |routes|
      invariant Pass(blocks, start, seqnr) == Collected(routes[..i])
      // so the branch of the source for a found block and an rlast is dead
      invariant rlast.Some? ==> start.None?
    {
      var r := routes[i];
      assert r in routes && Configured(r);
      RuleInShape(r);
      CollectedShape(routes, i);
      CollectedStep(routes, i);
      var tail, hash := Unusable, 0;
      if r.matcher.kind != MatchAll && !r.dests[0].Rewrite? {
        var overrun;
        tail, hash, overrun := ExtractTail(r.matcher.pattern);
      }
      if tail.Tail? {
        var moved;
        blocks, start, seqnr, moved := PlaceTailed(blocks, start, seqnr, r, tail.reversed, hash, routes);
        rlast := if moved then Some(r) else if r.stop then None else rlast;
      } else {
        // on its own, and a barrier for the rules behind it
        PlacedAlone(Pass(blocks, start, seqnr), r);
        blocks := blocks + [Block(None, 0, 1, seqnr, [r])];
        start, rlast, seqnr := Some(|blocks| - 1), None, seqnr + 1;
      }
      i := i + 1;
    }
    assert routes[..i] == routes;
  }

  lemma {:induction false} RuleInShape(r: Route)
    requires Configured(r)
    ensures r.dests != [] && '\0' !in r.matcher.pattern && TailFits(r.matcher.pattern)
  {
  }

  lemma {:induction false} NothingCollected(routes: seq<Route>)
    ensures Collected(routes[..0]) == Pass([Block(None, 0, 0, 0, [])], Some(0), 1)
  {
  }

  lemma {:induction false} CollectedStep(routes: seq<Route>, i: nat)
    requires i < |routes|
    ensures Collected(routes[..i + 1]) == Placed(Collected(routes[..i]), routes[i])
  {
    assert routes[..i + 1][..i] == routes[..i];
  }

  lemma {:induction false} PlacedAlone(p: Pass, r: Route)
    requires p.Valid() && !HasTail(r)
    ensures Placed(p, r) == Pass(p.blocks + [Block(None, 0, 1, p.seqnr, [r])], Some(|p.blocks|), p.seqnr + 1)
  {
  }

  lemma {:induction false} TailIsProper(pat: string)
    requires TailOf(pat).Tail?
    ensures TailOf(pat).reversed != "" && CharSum(TailOf(pat).reversed) > 0
  {
    CharSumPositive(TailOf(pat).reversed);
  }

  // ---------------------------------------------------------------------
  // Second pass: blocks into rules and groups
  // ---------------------------------------------------------------------

  lemma {:induction false} ReducedAppend(a: seq<Block>, b: seq<Block>)
    ensures Reduced(a + b) == Reduced(a) + Reduced(b)
    decreases |b|
  {
    if b == [] {
      assert a + b == a;
    } else {
      hide ReducedTo;
      var c, x := b[..|b| - 1], ReducedTo(b[|b| - 1]);
      assert (a + b)[..|a + b| - 1] == a + c;
      ReducedAppend(a, c);
      assert Reduced(a) + Reduced(c) + x == Reduced(a) + (Reduced(c) + x);
    }
  }

  lemma {:induction false} ReducedStep(blocks: seq<Block>, i: nat)
    requires i < |blocks|
    ensures Reduced(blocks[..i + 1]) == Reduced(blocks[..i]) + ReducedTo(blocks[i])
  {
    assert blocks[..i + 1][..i] == blocks[..i];
  }

  lemma {:induction false} ReducedDummy(input: seq<Block>, last: nat)
    requires |input| > 0 && input[0].refcnt == 0 && input[0].routes == []
    ensures Reduced(input[1..] + [input[0].(seqnr := last)]) == Reduced(input)
  {
    var d, e := [input[0]], [input[0].(seqnr := last)];
    assert input == d + input[1..];
    ReducedAppend(d, input[1..]);
    ReducedAppend(input[1..], e);
    assert d[..0] == [] && e[..0] == [];
  }

  method ReduceBlocks(input: seq<Block>, last: nat, ghost all: seq<Route>) returns (routes: seq<Route>)
    requires |input| > 0 && input[0].refcnt == 0
    requires AllValid(input, all)
    requires Numbered(input, last) && last >= 1
    ensures routes == Reduced(input)
  {
    hide Reduced;
    // the dummy goes to the end
    var blocks := input[1..] + [input[0].(seqnr := last)];
    assert AllValid(blocks, all);
    routes := [];
    NothingReduced();
    var seqnr, i := 1, 0;
    while i < |blocks|
      invariant i <= |blocks|
      invariant i < |blocks| ==> 1 <= seqnr <= blocks[i].seqnr
      invariant routes == Reduced(blocks[..i])
      decreases |blocks| - i, last - seqnr
    {
      var b := blocks[i];
      if b.seqnr > seqnr {
        seqnr := seqnr + 1;
        continue;
      } else if b.seqnr < seqnr {
        // "routes optimisation lost track"
        assert false;
      }
      assert ValidBlock(b, all);
      var out := if b.refcnt < 3 then b.routes else [GroupRoute(b.pattern.value, b.routes)];
      ReducedStep(blocks, i);
      routes := routes + out;
      i := i + 1;
    }
    assert blocks[..i] == blocks;
    ReducedDummy(input, last);
  }

  lemma {:induction false} NothingReduced()
    ensures Reduced([]) == []
  {
  }

  // ---------------------------------------------------------------------
  // What one rule does to the flattened list
  // ---------------------------------------------------------------------

  /** The rules placed so far: those in front of the block a rule joins, that block, and those behind it. */
  datatype Parts = Parts(before: seq<Route>, own: seq<Route>, behind: seq<Route>)

  ghost function PartsFor(p: Pass, r: Route): Parts
    requires p.Valid()
  {
    if !HasTail(r) then Parts(Flatten(p.blocks), [], [])
    else
      match p.Open(TailOf(r.matcher.pattern).reversed)
      case None => Parts(Flatten(p.blocks), [], [])
      case Some(k) => Parts(Flatten(p.blocks[..k]), p.blocks[k].routes, Flatten(p.blocks[k + 1..]))
  }

  /** A rule goes in front of `behind`; with a stop it goes to the end and takes `own` with it. */
  lemma {:induction false} PlacedFlattened(p: Pass, r: Route)
    requires p.Valid()
    ensures var s := PartsFor(p, r);
            && Flatten(p.blocks) == s.before + s.own + s.behind
            && Flatten(Placed(p, r).blocks) ==
               if r.stop then s.before + s.behind + (s.own + [r]) else s.before + (s.own + [r]) + s.behind
  {
    hide Flatten, TailOf, FindFrom, HasTail;
    var s := PartsFor(p, r);
    if !HasTail(r) {
      FlattenAdded(p.blocks, Block(None, 0, 1, p.seqnr, [r]), r);
    } else {
      TailedHasTail(r);
      var tail := TailOf(r.matcher.pattern).reversed;
      var g := p.Open(tail);
      if g.None? {
        FlattenAdded(p.blocks, Started(r, tail, p.seqnr), r);
      } else {
        FlattenJoined(p.blocks, g.value, r);
      }
    }
  }

  lemma {:induction false} FlattenAdded(blocks: seq<Block>, b: Block, r: Route)
    requires b.routes == [r]
    ensures Flatten(blocks) == Flatten(blocks) + [] + []
    ensures Flatten(blocks + [b]) == Flatten(blocks) + [] + ([] + [r])
    ensures Flatten(blocks + [b]) == Flatten(blocks) + ([] + [r]) + []
  {
    FlattenAppend(blocks, [b]);
    FlattenOne(b);
  }

  lemma {:induction false} FlattenJoined(blocks: seq<Block>, k: nat, r: Route)
    requires k < |blocks|
    ensures var before, own, behind := Flatten(blocks[..k]), blocks[k].routes, Flatten(blocks[k + 1..]);
            && Flatten(blocks) == before + own + behind
            && Flatten(blocks[k := Grown(blocks[k], r)]) == before + (own + [r]) + behind
            && Flatten(blocks[..k] + blocks[k + 1..] + [Grown(blocks[k], r)]) == before + behind + (own + [r])
  {
    hide Flatten;
    var b := Grown(blocks[k], r);
    FlattenAt(blocks, k);
    FlattenAt(blocks[k := b], k);
    assert blocks[k := b][..k] == blocks[..k] && blocks[k := b][k + 1..] == blocks[k + 1..];
    FlattenAppend(blocks[..k] + blocks[k + 1..], [b]);
    FlattenAppend(blocks[..k], blocks[k + 1..]);
    FlattenOne(b);
  }

  // ---------------------------------------------------------------------
  // Both passes keep the number of slots
  // ---------------------------------------------------------------------

  lemma {:induction false} PlacedSlots(p: Pass, r: Route)
    requires p.Valid()
    ensures Slots(Flatten(Placed(p, r).blocks)) == Slots(Flatten(p.blocks)) + Slots([r])
  {
    hide Slots, Placed, PartsFor, Flatten;
    var s := PartsFor(p, r);
    PlacedFlattened(p, r);
    SlotsAppend(s.before + s.own, s.behind);
    SlotsAppend(s.before, s.own);
    SlotsAppend(s.before + s.behind, s.own + [r]);
    SlotsAppend(s.before, s.behind);
    SlotsAppend(s.before + (s.own + [r]), s.behind);
    SlotsAppend(s.before, s.own + [r]);
    SlotsAppend(s.own, [r]);
  }

  lemma {:induction false} CollectedSlots(routes: seq<Route>)
    ensures Slots(Flatten(Collected(routes).blocks)) == Slots(routes)
    decreases |routes|
  {
    hide Flatten, Placed, Slots;
    if routes == [] {
      FlattenOne(Block(None, 0, 0, 0, []));
    } else {
      var init, r := routes[..|routes| - 1], routes[|routes| - 1];
      CollectedSlots(init);
      PlacedSlots(Collected(init), r);
      SlotsAppend(init, [r]);
      assert routes == init + [r];
    }
  }

  lemma {:induction false} GroupSlots(tail: string, routes: seq<Route>)
    ensures Slots([GroupRoute(tail, routes)]) == Slots(routes)
  {
    var g := GroupRoute(tail, routes);
    assert [g][1..] == [] && g.dests[1..] == [];
    assert DestSlots(g.dests) == SlotsOf(g.dests[0]) + DestSlots(g.dests[1..]) == Slots(routes);
    assert Slots([g]) == DestSlots(g.dests) + Slots([g][1..]) == Slots(routes);
  }

  lemma {:induction false} ReducedSlots(blocks: seq<Block>)
    ensures Slots(Reduced(blocks)) == Slots(Flatten(blocks))
    decreases |blocks|
  {
    hide Flatten, Slots, GroupRoute;
    if blocks == [] {
      NothingFlattened();
    } else {
      var init, b := blocks[..|blocks| - 1], blocks[|blocks| - 1];
      assert blocks == init + [b];
      FlattenAppend(init, [b]);
      FlattenOne(b);
      ReducedSlots(init);
      SlotsAppend(Reduced(init), ReducedTo(b));
      SlotsAppend(Flatten(init), b.routes);
      if b.pattern.Some? {
        GroupSlots(b.pattern.value, b.routes);
      }
    }
  }

  lemma {:induction false} NothingFlattened()
    ensures Flatten([]) == []
  {
  }

  // ---------------------------------------------------------------------
  // When both passes keep the meaning
  // ---------------------------------------------------------------------

  /** The rules that change places when `r` is placed may do so. */
  ghost predicate HarmlessStep(w: World, p: Pass, r: Route)
    requires p.Valid()
  {
    var s := PartsFor(p, r);
    if r.stop then forall y, x :: y in s.own && x in s.behind ==> Exchangeable(w, y, x)
    else forall x :: x in s.behind ==> Exchangeable(w, x, r)
  }

  /** No step of the first pass exchanges two rules whose order matters. */
  ghost predicate Harmless(w: World, routes: seq<Route>) {
    forall i :: 0 <= i < |routes| ==> HarmlessStep(w, Collected(routes[..i]), routes[i])
  }

  lemma {:induction false} PlacedMeans(w: World, p: Pass, r: Route)
    requires p.Valid() && HarmlessStep(w, p, r)
    ensures Equiv(w, Flatten(p.blocks) + [r], Flatten(Placed(p, r).blocks))
  {
    hide Equiv, PartsFor, Placed, Flatten, Exchangeable;
    var s := PartsFor(p, r);
    PlacedFlattened(p, r);
    if r.stop {
      ListsExchange(w, s.own, s.behind);
      EquivInContext(w, s.before, s.own + s.behind, s.behind + s.own, [r]);
      assert s.before + s.own + s.behind + [r] == s.before + (s.own + s.behind) + [r];
      assert s.before + s.behind + (s.own + [r]) == s.before + (s.behind + s.own) + [r];
    } else {
      RuleMovesForward(w, s.behind, r);
      EquivInContext(w, s.before + s.own, s.behind + [r], [r] + s.behind, []);
      assert s.before + s.own + s.behind + [r] == s.before + s.own + (s.behind + [r]) + [];
      assert s.before + (s.own + [r]) + s.behind == s.before + s.own + ([r] + s.behind) + [];
    }
  }

  lemma {:induction false} CollectedMeans(w: World, routes: seq<Route>, n: nat)
    requires Harmless(w, routes) && n <= |routes|
    ensures Equiv(w, routes[..n], Flatten(Collected(routes[..n]).blocks))
    decreases n
  {
    hide Equiv, HarmlessStep, Placed, Flatten, Collected;
    if n == 0 {
      NothingCollected(routes);
      FlattenOne(Block(None, 0, 0, 0, []));
      EquivReflexive(w, []);
      assert routes[..0] == [];
    } else {
      var p, r := Collected(routes[..n - 1]), routes[n - 1];
      CollectedMeans(w, routes, n - 1);
      CollectedStep(routes, n - 1);
      PlacedMeans(w, p, r);
      EquivInContext(w, [], routes[..n - 1], Flatten(p.blocks), [r]);
      assert [] + routes[..n - 1] + [r] == routes[..n];
      assert [] + Flatten(p.blocks) + [r] == Flatten(p.blocks) + [r];
      EquivTransitive(w, routes[..n], Flatten(p.blocks) + [r], Flatten(Placed(p, r).blocks));
    }
  }

  lemma {:induction false} ReducedBlock(w: World, all: seq<Route>, b: Block)
    requires ValidBlock(b, all) && AllSound(w, all)
    ensures Equiv(w, b.routes, ReducedTo(b))
  {
    hide RouteAll, TailOf, CharSum, Equiv, Needs;
    if ReducedTo(b) == b.routes {
      EquivReflexive(w, b.routes);
    } else {
      forall r | r in b.routes ensures Groupable(r) && Needs(w, r, b.pattern.value) {
        assert TailSound(w, r);
      }
      GroupMeansItsRules(w, b.pattern.value, b.routes);
    }
  }

  lemma {:induction false} ReducedMeans(w: World, all: seq<Route>, blocks: seq<Block>)
    requires AllValid(blocks, all) && AllSound(w, all)
    ensures Equiv(w, Flatten(blocks), Reduced(blocks))
    decreases |blocks|
  {
    hide Equiv, Flatten, ValidBlock, ReducedTo, TailSound;
    if blocks == [] {
      NothingFlattened();
      EquivReflexive(w, []);
    } else {
      var init, b := blocks[..|blocks| - 1], blocks[|blocks| - 1];
      assert blocks == init + [b];
      FlattenAppend(init, [b]);
      FlattenOne(b);
      ReducedMeans(w, all, init);
      ReducedBlock(w, all, b);
      EquivInContext(w, [], Flatten(init), Reduced(init), b.routes);
      EquivInContext(w, Reduced(init), b.routes, ReducedTo(b), []);
      assert [] + Flatten(init) + b.routes == Flatten(blocks);
      assert [] + Reduced(init) + b.routes == Reduced(init) + b.routes == Reduced(init) + b.routes + [];
      assert Reduced(init) + ReducedTo(b) + [] == Reduced(blocks);
      EquivTransitive(w, Flatten(blocks), Reduced(init) + b.routes, Reduced(blocks));
    }
  }

  /** Main result: exchanges that are harmless one by one keep the meaning of the whole list. */
  lemma {:induction false} OptimisedMeans(w: World, routes: seq<Route>)
    requires forall r :: r in routes ==> Configured(r)
    requires AllSound(w, routes) && Harmless(w, routes)
    ensures Equiv(w, routes, Optimised(routes))
  {
    hide Equiv, Flatten, Reduced, Collected, Configured, HarmlessStep, TailSound;
    var n := |routes|;
    assert routes[..n] == routes;
    CollectedMeans(w, routes, n);
    CollectedShape(routes, n);
    ReducedMeans(w, routes, Collected(routes).blocks);
    EquivTransitive(w, routes, Flatten(Collected(routes).blocks), Optimised(routes));
  }

  lemma {:induction false} OptimisedSlots(routes: seq<Route>)
    ensures Slots(Optimised(routes)) == Slots(routes)
  {
    hide Flatten, Reduced, Collected, Slots;
    CollectedSlots(routes);
    ReducedSlots(Collected(routes).blocks);
  }

  /** Rules behind the barrier that do not share a block have no stop, and their tails differ. */
  lemma {:induction false} BehindIsOpen(all: seq<Route>, p: Pass, r: Route, x: Route)
    requires p.Valid() && Shape(all, p) && x in PartsFor(p, r).behind
    ensures HasTail(r) && x in all && Configured(x) && HasTail(x) && !x.stop
    ensures TailOf(x.matcher.pattern).reversed != TailOf(r.matcher.pattern).reversed
  {
    hide Flatten, TailOf, CharSum, FindFrom, Configured;
    TailedHasTail(r);
    var k := p.Open(TailOf(r.matcher.pattern).reversed).value;
    var j := InBlock(p.blocks[k + 1..], x);
    var b := p.blocks[k + 1..][j];
    assert b == p.blocks[k + 1 + j];
    assert ValidBlock(b, all) && OpenBlock(b);
  }

  lemma {:induction false} OwnIsOpen(all: seq<Route>, p: Pass, r: Route, y: Route)
    requires p.Valid() && Shape(all, p) && y in PartsFor(p, r).own
    ensures HasTail(r) && y in all && Configured(y) && HasTail(y) && !y.stop
    ensures TailOf(y.matcher.pattern).reversed == TailOf(r.matcher.pattern).reversed
  {
    hide Flatten, TailOf, CharSum, FindFrom, Configured;
    TailedHasTail(r);
    var b := p.blocks[p.Open(TailOf(r.matcher.pattern).reversed).value];
    assert ValidBlock(b, all) && OpenBlock(b);
  }

  lemma {:induction false} InBlock(blocks: seq<Block>, x: Route) returns (j: nat)
    requires x in Flatten(blocks)
    ensures j < |blocks| && x in blocks[j].routes
    decreases |blocks|
  {
    if x in blocks[0].routes {
      j := 0;
    } else {
      j := InBlock(blocks[1..], x);
      j := j + 1;
    }
  }

  /** All pairs of rules of the list that may change places at all. */
  ghost predicate PairsExchange(w: World, routes: seq<Route>) {
    forall x, y :: x in routes && y in routes && MayMeet(x, y) ==> Exchangeable(w, x, y)
  }

  /** Rules without stop and with different tails. */
  predicate MayMeet(x: Route, y: Route) {
    && HasTail(x) && HasTail(y) && !x.stop && !y.stop
    && TailOf(x.matcher.pattern).reversed != TailOf(y.matcher.pattern).reversed
  }

  lemma {:induction false} PairsAreHarmless(w: World, routes: seq<Route>)
    requires forall r :: r in routes ==> Configured(r)
    requires PairsExchange(w, routes)
    ensures Harmless(w, routes)
  {
    hide Collected, Exchangeable, Configured, TailOf, HasTail, Shape, PartsFor;
    forall i | 0 <= i < |routes| ensures HarmlessStep(w, Collected(routes[..i]), routes[i]) {
      var p, r := Collected(routes[..i]), routes[i];
      CollectedShape(routes, i);
      var s := PartsFor(p, r);
      assert r in routes;
      forall x | x in s.behind
        ensures !r.stop ==> Exchangeable(w, x, r)
        ensures forall y :: y in s.own ==> Exchangeable(w, y, x)
      {
        BehindIsOpen(routes, p, r, x);
        assert !r.stop ==> MayMeet(x, r);
        forall y | y in s.own ensures Exchangeable(w, y, x) {
          OwnIsOpen(routes, p, r, y);
          assert MayMeet(y, x);
        }
      }
    }
  }

  /** Placing `r` exchanges no lone check with another rule. */
  ghost predicate MovesNoCheck(p: Pass, r: Route)
    requires p.Valid()
  {
    var s := PartsFor(p, r);
    if r.stop then forall y, x :: y in s.own && x in s.behind ==> !LoneCheck(y) && !LoneCheck(x)
    else forall x :: x in s.behind ==> !LoneCheck(x) && !LoneCheck(r)
  }

  ghost predicate ChecksStay(routes: seq<Route>) {
    forall i :: 0 <= i < |routes| ==> MovesNoCheck(Collected(routes[..i]), routes[i])
  }

  lemma {:induction false} UncheckedExchange(w: World, x: Route, y: Route)
    requires Configured(x) && HasTail(x) && !x.stop && !LoneCheck(x)
    requires Configured(y) && HasTail(y) && !y.stop && !LoneCheck(y)
    ensures Exchangeable(w, x, y)
  {
    hide Exchangeable, Configured, HasTail, LoneCheck, Calm;
    TailedIsCalm(x);
    TailedIsCalm(y);
    CalmRulesExchange(w, x, y);
  }

  /** Main result: where no lone check changes places, in whatever world, every exchange is harmless. */
  lemma {:induction false} UnmovedChecksAreHarmless(w: World, routes: seq<Route>)
    requires forall r :: r in routes ==> Configured(r)
    requires ChecksStay(routes)
    ensures Harmless(w, routes)
  {
    hide Collected, Exchangeable, Configured, TailOf, HasTail, Shape, PartsFor, LoneCheck;
    forall i | 0 <= i < |routes| ensures HarmlessStep(w, Collected(routes[..i]), routes[i]) {
      var p, r := Collected(routes[..i]), routes[i];
      CollectedShape(routes, i);
      var s := PartsFor(p, r);
      assert r in routes && MovesNoCheck(p, r);
      if r.stop {
        forall y, x | y in s.own && x in s.behind ensures Exchangeable(w, y, x) {
          BehindIsOpen(routes, p, r, x);
          OwnIsOpen(routes, p, r, y);
          UncheckedExchange(w, y, x);
        }
      } else {
        forall x | x in s.behind ensures Exchangeable(w, x, r) {
          BehindIsOpen(routes, p, r, x);
          UncheckedExchange(w, x, r);
        }
      }
    }
  }

  lemma {:induction false} NoChecksStay(routes: seq<Route>)
    requires forall r :: r in routes ==> Configured(r) && !LoneCheck(r)
    ensures ChecksStay(routes)
  {
    hide Collected, Configured, TailOf, HasTail, Shape, PartsFor, LoneCheck;
    forall i | 0 <= i < |routes| ensures MovesNoCheck(Collected(routes[..i]), routes[i]) {
      var p, r := Collected(routes[..i]), routes[i];
      CollectedShape(routes, i);
      var s := PartsFor(p, r);
      assert r in routes;
      forall x | x in s.behind ensures !LoneCheck(x) {
        BehindIsOpen(routes, p, r, x);
      }
      forall y | y in s.own ensures !LoneCheck(y) {
        OwnIsOpen(routes, p, r, y);
      }
    }
  }

  /**
   * Main result: whatever regexes, hashes and metrics are, as long as every
   * rule with a tail literal matches only names that contain it, the optimised
   * list routes like the original wherever the exchanges are harmless, which
   * they are when no lone check changes places; it always asks for the same
   * number of slots.
   */
  method Optimise(routes: seq<Route>, threshold: int) returns (optimised: seq<Route>)
    requires forall r :: r in routes ==> Configured(r)
    ensures optimised == if threshold < 0 || |routes| < threshold then routes else Optimised(routes)
    ensures Slots(optimised) == Slots(routes)
    ensures forall w: World :: AllSound(w, routes) && Harmless(w, routes) ==> Equiv(w, routes, optimised)
    ensures ChecksStay(routes) ==> forall w: World :: AllSound(w, routes) ==> Equiv(w, routes, optimised)
    ensures (forall r :: r in routes ==> !LoneCheck(r)) ==> ChecksStay(routes)
  {
    hide Equiv, Harmless, ChecksStay, AllSound, Collected, Reduced, Slots, Configured, LoneCheck;
    if forall r :: r in routes ==> !LoneCheck(r) {
      NoChecksStay(routes);
    }
    if threshold < 0 || |routes| < threshold {
      // a negative threshold is compared as a huge unsigned number
      forall w: World ensures Equiv(w, routes, routes) {
        EquivReflexive(w, routes);
      }
      return routes;
    }
    var blocks, last := BuildBlocks(routes);
    assert routes[..|routes|] == routes;
    CollectedShape(routes, |routes|);
    optimised := ReduceBlocks(blocks, last, routes);
    OptimisedSlots(routes);
    forall w: World | AllSound(w, routes) && Harmless(w, routes) ensures Equiv(w, routes, optimised) {
      OptimisedMeans(w, routes);
    }
    if ChecksStay(routes) {
      forall w: World | AllSound(w, routes) ensures Equiv(w, routes, optimised) {
        UnmovedChecksAreHarmless(w, routes);
      }
    }
  }

  // ---------------------------------------------------------------------
  // Which rules have a sound tail
  // ---------------------------------------------------------------------

  /** A rule the classifier turned into a string match. */
  predicate Plain(r: Route) {
    var c := Classify(r.matcher.pattern);
    c.kind != Regex && r.matcher.kind == c.kind && r.matcher.strmatch == c.lit
  }

  /** A stub's rule: its pattern is taken as a prefix as it stands. */
  predicate StubRule(r: Route) {
    r.matcher.kind == StartsWith && r.matcher.strmatch == r.matcher.pattern &&
    forall c :: c in r.matcher.pattern ==> LiteralChar(c)
  }

  /** On a proper metric an ENDS_WITH comparison never runs off the front of the name. */
  lemma {:induction false} EndsWithStaysInName(lit: string, m: Metric)
    requires Proper(m) && forall c :: c in lit ==> LiteralChar(c)
    requires MatchString(EndsWith, lit, m.InMemory()).Some?
    ensures |lit| <= |m.name|
  {
    var mem := m.before + m.name;
    assert mem[|mem| - |lit|..] == lit;
    assert forall k :: |mem| - |lit| <= k < |mem| ==> mem[k] in lit;
    assert m.before != "" ==> mem[|m.before| - 1] == m.before[|m.before| - 1];
  }

  lemma {:induction false} PlainTailIsSound(w: World, r: Route)
    requires Plain(r) || StubRule(r)
    ensures TailSound(w, r)
  {
    if HasTail(r) {
      var pat, lit, kind := r.matcher.pattern, r.matcher.strmatch, r.matcher.kind;
      var tail := Reverse(TailOf(pat).reversed);
      if Plain(r) {
        ClassifiedPatternParses(pat);
        TailStandsInLiteral(pat);
      } else {
        TailStandsInPattern(pat);
      }
      forall m: Metric | Proper(m) && MatchRule(w, r.matcher, m).Some? ensures Substring(tail, m.name) {
        if kind == EndsWith {
          EndsWithStaysInName(lit, m);
        }
        MatchedLiteralStandsInName(kind, lit, m.InMemory());
        SubstringTransitive(tail, lit, m.name);
      }
    }
  }

  /** Lists of plain rules, and of rules without a tail, need no hypothesis at all. */
  lemma {:induction false} PlainRulesAreSound(w: World, routes: seq<Route>)
    requires forall r :: r in routes ==> Plain(r) || StubRule(r) || !HasTail(r)
    ensures AllSound(w, routes)
  {
    forall r | r in routes ensures TailSound(w, r) {
      if HasTail(r) {
        PlainTailIsSound(w, r);
      }
    }
  }

  /**
   * The interpreter itself, with its destination array: a list and its
   * optimised form fill the array with the same deliveries.
   */
  method RouteBothWays(w: World, m: Metric, routes: seq<Route>, threshold: int, retsize: nat)
    returns (plain: Outcome, fast: Outcome)
    requires forall r :: r in routes ==> Configured(r)
    requires AllSound(w, routes) && Harmless(w, routes) && RingsAnswer(w) && Proper(m)
    requires Slots(routes) <= retsize
    ensures Same(plain, fast) && |fast.dels| <= retsize
    ensures plain == RouteAll(w, m, routes)
  {
    var optimised := Optimise(routes, threshold);
    var m', ret, subs, stop, full, hidden := RouteIntern(w, m, routes, [], retsize);
    ThenThen([], [], [], [], RouteAll(w, m, routes));
    plain := Outcome(m', ret, subs, stop);
    m', ret, subs, stop, full, hidden := RouteIntern(w, m, optimised, [], retsize);
    ThenThen([], [], [], [], RouteAll(w, m, optimised));
    fast := Outcome(m', ret, subs, stop);
  }
}
