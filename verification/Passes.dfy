/**
 * A pass of the expiry thread over the hash table of invocations
 * (`aggregator_expire`) leaves none out, whatever the putters do meanwhile.
 */
module Passes {
  import opened Common
  import opened TableSteps
  import opened InvocationTable

  /** The slot and the node the expiry thread has come to. */
  function Place(x: Expirer): Option<(nat, Option<Ref>)> {
    match x
    case Sleeping => None
    case Scanning(i, at) => Some((i, at))
    case Emitting(i, ref) => Some((i, Some(ref)))
    case Sweeping(i, _, at) => Some((i, at))
  }

  predicate Visiting(st: State, r: Ref) {
    Place(st.expirer).Some? && Place(st.expirer).value.1 == Some(r)
  }

  /** `r` stands at `at` in the chain, or behind it. */
  ghost predicate FromOn(c: seq<Ref>, at: Option<Ref>, r: Ref) {
    at.Some? && exists a, b :: 0 <= a <= b < |c| && c[a] == at.value && c[b] == r
  }

  ghost predicate InLater(cs: seq<seq<Ref>>, i: nat, r: Ref) {
    exists k :: i < k < |cs| && r in cs[k]
  }

  /** The thread is still to come to `r`, or is there. */
  ghost predicate ToCome(st: State, cs: seq<seq<Ref>>, r: Ref) {
    && Place(st.expirer).Some?
    && var (i, at) := Place(st.expirer).value;
       i < |cs| && (FromOn(cs[i], at, r) || InLater(cs, i, r))
  }

  /** The next node of the chain, as long as this one is not it. */
  lemma {:induction false} NextInChain(h: Hashing, st: State, cs: seq<seq<Ref>>, i: nat, at: Ref, r: Ref)
    requires TableOk(h, st, cs) && i < |cs| && FromOn(cs[i], Some(at), r) && at != r
    ensures at in st.nodes && FromOn(cs[i], st.nodes[at].next, r)
  {
    hide NodeOk;
    var c := cs[i];
    var a, b :| 0 <= a <= b < |c| && c[a] == at && c[b] == r;
    var j := WalkOn(h, st, cs, i, at);
    assert ChainOk(h, st, i, c);
    assert j == a;
    assert c[a + 1] == st.nodes[at].next.value;
  }

  lemma {:induction false} NextChain(h: Hashing, st: State, cs: seq<seq<Ref>>, i: nat, r: Ref)
    requires TableOk(h, st, cs) && i < |cs| && InLater(cs, i, r)
    ensures i + 1 < |cs| == |st.heads| && (FromOn(cs[i + 1], st.heads[i + 1], r) || InLater(cs, i + 1, r))
  {
    HeadOf(h, st, cs, i + 1);
    var c := cs[i + 1];
    if r in c {
      var b :| 0 <= b < |c| && c[b] == r;
      assert c[0] == st.heads[i + 1].value;
    }
  }

  /** A node put in front moves nobody past another. */
  lemma {:induction false} GrownInFront(cs: seq<seq<Ref>>, s: nat, ref: Ref, i: nat, at: Option<Ref>, r: Ref)
    requires s < |cs| && i < |cs|
    ensures var ds := cs[s := [ref] + cs[s]];
            && (FromOn(cs[i], at, r) ==> FromOn(ds[i], at, r))
            && (InLater(cs, i, r) ==> InLater(ds, i, r))
  {
    var ds := cs[s := [ref] + cs[s]];
    if FromOn(cs[i], at, r) && s == i {
      var a, b :| 0 <= a <= b < |cs[i]| && cs[i][a] == at.value && cs[i][b] == r;
      assert ds[i][a + 1] == at.value && ds[i][b + 1] == r;
    }
    if InLater(cs, i, r) {
      var k :| i < k < |cs| && r in cs[k];
      assert r in ds[k];
    }
  }

  lemma {:induction false} UnlinkPasses(h: Hashing, st: State, cs: seq<seq<Ref>>, r: Ref)
    requires Valid(h, st, cs) && Enabled(h, st, Unlink) && Safe(h, st, Unlink)
    requires ToCome(st, cs, r) && !Visiting(st, r)
    ensures ToCome(Next(h, st, Unlink), ChainsAfter(h, st, cs, Unlink), r)
  {
    hide NodeOk, PutterOk;
    SweepPosition(h, st, cs);
    var i, at := st.expirer.slot, st.expirer.at.value;
    var c, ds := cs[i], AfterUnlink(cs, i, at);
    var j := NextIs(h, st, cs, i, at);
    assert ds[i] == c[..j] + c[j + 1..];
    if FromOn(c, Some(at), r) {
      assert ChainOk(h, st, i, c);
      var a, b :| 0 <= a <= b < |c| && c[a] == at && c[b] == r;
      assert a == j && b > j;
      assert ds[i][j] == c[j + 1] && ds[i][b - 1] == r;
    } else {
      var k :| i < k < |cs| && r in cs[k];
      assert r in ds[k];
    }
  }

  /** The steps of the expiry thread that leave the table alone. */
  lemma {:induction false} OwnStepPasses(h: Hashing, st: State, cs: seq<seq<Ref>>, e: Event, r: Ref)
    requires TableOk(h, st, cs) && Enabled(h, st, e) && Safe(h, st, e) && ExpirerEvent(e)
    requires ToCome(st, cs, r) && !Visiting(st, r)
    ensures ToCome(Next(h, st, e), cs, r)
  {
    hide TableOk, FromOn, InLater;
    var (i, at) := Place(st.expirer).value;
    if FromOn(cs[i], at, r) {
      FromSome(cs[i], at, r);
      NextInChain(h, st, cs, i, at.value, r);
    } else {
      NextChain(h, st, cs, i, r);
      TableSize(h, st, cs);
    }
  }

  lemma {:induction false} FromSome(c: seq<Ref>, at: Option<Ref>, r: Ref)
    requires FromOn(c, at, r)
    ensures at.Some?
  {
  }

  lemma {:induction false} TableSize(h: Hashing, st: State, cs: seq<seq<Ref>>)
    requires TableOk(h, st, cs)
    ensures |cs| == h.size
  {
  }

  lemma {:induction false} StepPasses(h: Hashing, st: State, cs: seq<seq<Ref>>, e: Event, r: Ref)
    requires Valid(h, st, cs) && Enabled(h, st, e) && ToCome(st, cs, r) && !Visiting(st, r)
    ensures Safe(h, st, e) && ToCome(Next(h, st, e), ChainsAfter(h, st, cs, e), r)
  {
    hide TableOk, PutterOk, ExpirerOk, Safe, FromOn, InLater;
    StepsAreSafe(h, st, cs, e);
    if e.Insert? {
      var (i, at) := Place(st.expirer).value;
      GrownInFront(cs, h.SlotOf(st.putters[e.p].name), e.ref, i, at, r);
    } else if e.Unlink? {
      UnlinkPasses(h, st, cs, r);
    } else if ExpirerEvent(e) {
      OwnStepPasses(h, st, cs, e, r);
    }
  }

  /** At some time during the run the thread is at `r`. */
  ghost predicate Visits(h: Hashing, st: State, cs: seq<seq<Ref>>, es: seq<Event>, r: Ref)
    requires Valid(h, st, cs) && IsRun(h, st, cs, es)
    decreases |es|
  {
    Visiting(st, r) ||
    (es != [] && (StepKeepsValid(h, st, cs, es[0]);
                  Visits(h, Next(h, st, es[0]), ChainsAfter(h, st, cs, es[0]), es[1..], r)))
  }

  lemma {:induction false} ComesAround(h: Hashing, st: State, cs: seq<seq<Ref>>, es: seq<Event>, r: Ref)
    requires Valid(h, st, cs) && IsRun(h, st, cs, es) && ToCome(st, cs, r)
    requires End(h, st, cs, es).0.expirer.Sleeping?
    ensures Visits(h, st, cs, es, r)
    decreases |es|
  {
    hide Valid, Enabled, Safe, Next, ChainsAfter;
    if !Visiting(st, r) {
      StepPasses(h, st, cs, es[0], r);
      StepKeepsValid(h, st, cs, es[0]);
      ComesAround(h, Next(h, st, es[0]), ChainsAfter(h, st, cs, es[0]), es[1..], r);
    }
  }

  lemma {:induction false} PassBegins(h: Hashing, st: State, cs: seq<seq<Ref>>, e: Event, r: Ref)
    requires Valid(h, st, cs) && Enabled(h, st, e) && (e.StartScan? || e.StartSweep?) && r in st.nodes
    ensures Safe(h, st, e) && ToCome(Next(h, st, e), ChainsAfter(h, st, cs, e), r)
  {
    hide PutterOk, ChainOk;
    StepsAreSafe(h, st, cs, e);
    HeadOf(h, st, cs, 0);
    var k := h.slot(st.nodes[r].hash);
    assert r in cs[k];
    if k == 0 {
      var b :| 0 <= b < |cs[0]| && cs[0][b] == r;
      assert cs[0][0] == st.heads[0].value;
    }
  }

  /**
   * Main result: a scan, or a sweep, that runs to its end has come to every
   * invocation that was there when it began, under every interleaving.
   */
  lemma {:induction false} EveryInvocationIsVisited(h: Hashing, st: State, cs: seq<seq<Ref>>, es: seq<Event>, r: Ref)
    requires Valid(h, st, cs) && IsRun(h, st, cs, es) && r in st.nodes
    requires es != [] && (es[0].StartScan? || es[0].StartSweep?) && End(h, st, cs, es).0.expirer.Sleeping?
    ensures Visits(h, st, cs, es, r)
  {
    hide Valid, Enabled, Safe, Next, ChainsAfter;
    PassBegins(h, st, cs, es[0], r);
    StepKeepsValid(h, st, cs, es[0]);
    ComesAround(h, Next(h, st, es[0]), ChainsAfter(h, st, cs, es[0]), es[1..], r);
  }
}
