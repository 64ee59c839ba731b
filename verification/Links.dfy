/**
 * The doubly linked list of blocks in `router_optimise`. Moving a block follows
 * its `prev`, which nobody keeps up to date. It is right whenever it is
 * followed, so the links hold the blocks as `Optimiser.Collected` has them.
 */
module Links {
  import opened Common
  import opened Tails
  import opened Routing
  import opened Optimiser

  /** Blocks are numbered as they are allocated; block 0 is the dummy, whose `prev` is never set. */
  datatype List = List(next: seq<Option<nat>>, prev: seq<nat>, last: nat)

  /** Walking from the dummy along `next` meets these blocks, all of them, in this order. */
  ghost predicate Walk(l: List, order: seq<nat>) {
    && |order| == |l.next| == |l.prev| > 0 && order[0] == 0
    && (forall j :: 0 <= j < |order| ==> order[j] < |order|)
    && (forall i, j :: 0 <= i < j < |order| ==> order[i] != order[j])
    && (forall j :: 0 <= j < |order| - 1 ==> l.next[order[j]] == Some(order[j + 1]))
    && l.last == order[|order| - 1] && l.next[l.last] == None
  }

  /** Behind position `s` every `prev` is right. */
  ghost predicate Current(l: List, order: seq<nat>, s: nat)
    requires Walk(l, order)
  {
    forall j :: s < j < |order| ==> l.prev[order[j]] == order[j - 1]
  }

  function Appended(l: List): List
    requires l.last < |l.next|
  {
    List(l.next[l.last := Some(|l.next|)] + [None], l.prev + [l.last], |l.next|)
  }

  lemma {:induction false} AppendedWalk(l: List, order: seq<nat>)
    requires Walk(l, order)
    ensures Walk(Appended(l), order + [|order|])
    ensures forall s :: 0 <= s <= |order| && Current(l, order, s) ==> Current(Appended(l), order + [|order|], s)
  {
    var n, m, longer := |order|, Appended(l), order + [|order|];
    forall j | 0 <= j < n ensures m.next[longer[j]] == Some(longer[j + 1]) {
      assert j < n - 1 ==> order[j] != order[n - 1];
    }
    assert forall j :: 0 <= j < n ==> m.prev[longer[j]] == l.prev[order[j]];
  }

  /** Unlinks block `b` through its `prev` and hangs it behind the last one. */
  function Moved(l: List, b: nat): List
    requires b < |l.next| && l.last < |l.next| && b < |l.prev| && l.prev[b] < |l.next|
  {
    if l.next[b].None? then l
    else l.(next := l.next[l.prev[b] := l.next[b]][l.last := Some(b)][b := None], last := b)
  }

  /** The block at position `k` is last now. */
  function ToEnd(order: seq<nat>, k: nat): seq<nat>
    requires k < |order|
  {
    order[..k] + order[k + 1..] + [order[k]]
  }

  lemma {:induction false} MovedWalk(l: List, order: seq<nat>, k: nat)
    requires Walk(l, order) && 0 < k < |order| && l.prev[order[k]] == order[k - 1]
    ensures order[k - 1] < |l.next| && Walk(Moved(l, order[k]), ToEnd(order, k))
  {
    var n, b, to := |order|, order[k], ToEnd(order, k);
    var m := Moved(l, b);
    assert forall j :: 0 <= j < k ==> to[j] == order[j];
    assert forall j :: k <= j < n - 1 ==> to[j] == order[j + 1];
    assert to[n - 1] == b;
    if k == n - 1 {
      assert to == order;
    } else {
      assert l.next[b] == Some(order[k + 1]);
      forall j | 0 <= j < n - 1 ensures m.next[to[j]] == Some(to[j + 1]) {
        LinkAfterMove(l, order, k, j);
      }
    }
  }

  lemma {:induction false} LinkAfterMove(l: List, order: seq<nat>, k: nat, j: nat)
    requires Walk(l, order) && 0 < k < |order| - 1 && l.prev[order[k]] == order[k - 1] && j < |order| - 1
    ensures Moved(l, order[k]).next[ToEnd(order, k)[j]] == Some(ToEnd(order, k)[j + 1])
  {
    var n, b, to := |order|, order[k], ToEnd(order, k);
    var at := if j < k then j else j + 1;
    assert l.next[b] == Some(order[k + 1]);
    assert to[j] == order[at] && order[at] != b;
    if j == n - 2 {
      assert order[at] == l.last && to[j + 1] == b;
    } else if j == k - 1 {
      assert order[at] != l.last && to[j + 1] == order[k + 1];
    } else {
      assert order[at] != l.last && order[at] != order[k - 1];
      assert to[j + 1] == order[at + 1];
    }
  }

  // ---------------------------------------------------------------------
  // Along the first pass
  // ---------------------------------------------------------------------

  /** The block a rule joins, if any. */
  function JoinedAt(p: Pass, r: Route): Option<nat>
    requires p.Valid()
  {
    if HasTail(r) then p.Open(TailOf(r.matcher.pattern).reversed) else None
  }

  /** The numbers of the blocks in the order of `Collected`. */
  function Order(routes: seq<Route>): (order: seq<nat>)
    ensures |order| == |Collected(routes).blocks|
  {
    if routes == [] then [0]
    else
      var init, r := routes[..|routes| - 1], routes[|routes| - 1];
      var order, at := Order(init), JoinedAt(Collected(init), r);
      if at.None? then order + [|order|] else if r.stop then ToEnd(order, at.value) else order
  }

  /** The links as the pass leaves them; `None` once it would follow a `prev` that does not exist. */
  function Linked(routes: seq<Route>): Option<List> {
    if routes == [] then Some(List([None], [0], 0))
    else
      var init, r := routes[..|routes| - 1], routes[|routes| - 1];
      var l, at := Linked(init), JoinedAt(Collected(init), r);
      if l.None? || l.value.last >= |l.value.next| then None
      else if at.None? then Some(Appended(l.value))
      else if !r.stop then l
      else
        var b := Order(init)[at.value];
        if b < |l.value.next| && b < |l.value.prev| && l.value.prev[b] < |l.value.next| then Some(Moved(l.value, b))
        else None
  }

  /** What the links keep between two rules. */
  ghost predicate Follows(l: Option<List>, order: seq<nat>, start: Option<nat>) {
    && l.Some? && Walk(l.value, order)
    && (start.Some? ==> start.value < |order| && Current(l.value, order, start.value))
  }

  lemma {:induction false} RuleKeepsLinks(routes: seq<Route>, l: List)
    requires routes != [] && Linked(routes[..|routes| - 1]) == Some(l) && Barred(Collected(routes[..|routes| - 1]))
    requires Follows(Some(l), Order(routes[..|routes| - 1]), Collected(routes[..|routes| - 1]).start)
    ensures Follows(Linked(routes), Order(routes), Collected(routes).start)
  {
    hide HasTail, TailOf, FindFrom;
    var init, r := routes[..|routes| - 1], routes[|routes| - 1];
    var p, order := Collected(init), Order(init);
    var at := JoinedAt(p, r);
    if HasTail(r) {
      TailedHasTail(r);
    }
    if at.None? {
      AppendedWalk(l, order);
    } else if r.stop {
      assert p.start.value < at.value;
      MovedWalk(l, order, at.value);
    }
  }

  /** Main result: after every rule the links hold the blocks in the order of `Collected`. */
  lemma {:induction false} LinksFollowBlocks(routes: seq<Route>)
    ensures Follows(Linked(routes), Order(routes), Collected(routes).start)
    decreases |routes|
  {
    if routes != [] {
      hide Placed, Walk, Current;
      var init := routes[..|routes| - 1];
      LinksFollowBlocks(init);
      CollectedBarred(init);
      RuleKeepsLinks(routes, Linked(init).value);
    }
  }
}
