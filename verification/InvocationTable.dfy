/**
 * The invocations of a compute (`aggregator.c`): under every interleaving of the
 * steps, the table, the chains and the threads' pointers agree.
 */
module InvocationTable {
  import opened Common
  import opened TableSteps

  ghost function ChainsAfter(h: Hashing, st: State, cs: seq<seq<Ref>>, e: Event): seq<seq<Ref>>
    requires Valid(h, st, cs) && Enabled(h, st, e)
  {
    match e
    case Insert(p, ref) => AfterInsert(h, cs, st.putters[p].name, ref)
    case Unlink =>
      SweepPosition(h, st, cs);
      AfterUnlink(cs, st.expirer.slot, st.expirer.at.value)
    case _ => cs
  }

  lemma {:induction false} StepKeepsValid(h: Hashing, st: State, cs: seq<seq<Ref>>, e: Event)
    requires Valid(h, st, cs) && Enabled(h, st, e)
    ensures Safe(h, st, e) && Valid(h, Next(h, st, e), ChainsAfter(h, st, cs, e))
  {
    hide TableOk, PutterOk, ExpirerOk, Safe, Inserted, Unlinked, AfterInsert, AfterUnlink;
    StepsAreSafe(h, st, cs, e);
    if e.Insert? {
      InsertStep(h, st, cs, e.p, e.ref);
    } else if e.Unlink? {
      SweepPosition(h, st, cs);
      UnlinkStep(h, st, cs);
    } else if PutterEvent(e) {
      PutterStep(h, st, cs, e);
    } else {
      ExpirerStep(h, st, cs, e);
    }
  }

  /** Can the steps be taken one after the other? */
  ghost predicate IsRun(h: Hashing, st: State, cs: seq<seq<Ref>>, es: seq<Event>)
    requires Valid(h, st, cs)
    decreases |es|
  {
    es != [] ==> Enabled(h, st, es[0]) &&
                 (StepKeepsValid(h, st, cs, es[0]);
                  IsRun(h, Next(h, st, es[0]), ChainsAfter(h, st, cs, es[0]), es[1..]))
  }

  /** The state at the end, with the chains that its pointers form. */
  ghost function End(h: Hashing, st: State, cs: seq<seq<Ref>>, es: seq<Event>): (r: (State, seq<seq<Ref>>))
    requires Valid(h, st, cs) && IsRun(h, st, cs, es)
    ensures Valid(h, r.0, r.1)
    decreases |es|
  {
    if es == [] then (st, cs)
    else
      StepKeepsValid(h, st, cs, es[0]);
      End(h, Next(h, st, es[0]), ChainsAfter(h, st, cs, es[0]), es[1..])
  }

  /** An empty table and `n` putters at rest. */
  function Init(h: Hashing, n: nat): State {
    State(seq(h.size, _ => None), map[], {}, None, seq(n, _ => Resting), Sleeping, map[])
  }

  lemma {:induction false} InitIsValid(h: Hashing, n: nat)
    requires h.Valid()
    ensures Valid(h, Init(h, n), seq(h.size, _ => []))
  {
  }

  ghost predicate Possible(h: Hashing, n: nat, es: seq<Event>)
    requires h.Valid()
  {
    InitIsValid(h, n);
    IsRun(h, Init(h, n), seq(h.size, _ => []), es)
  }

  ghost function Final(h: Hashing, n: nat, es: seq<Event>): (r: (State, seq<seq<Ref>>))
    requires h.Valid() && Possible(h, n, es)
    ensures Valid(h, r.0, r.1)
  {
    InitIsValid(h, n);
    End(h, Init(h, n), seq(h.size, _ => []), es)
  }

  /** The search loop, over at most `fuel` nodes. */
  function Search(nodes: map<Ref, Node>, at: Option<Ref>, name: string, hash: nat, fuel: nat): Option<Ref>
    decreases fuel
  {
    if at.None? || at.value !in nodes || fuel == 0 then None
    else if IsMatch(nodes[at.value], name, hash) then at
    else Search(nodes, nodes[at.value].next, name, hash, fuel - 1)
  }

  lemma {:induction false} SearchFinds(h: Hashing, st: State, cs: seq<seq<Ref>>, name: string, j: nat, fuel: nat)
    requires TableOk(h, st, cs) && j <= |cs[h.SlotOf(name)]| && fuel >= |cs[h.SlotOf(name)]| - j
    requires PassedBy(st.nodes, cs[h.SlotOf(name)], j, name)
    ensures Search(st.nodes, At(cs[h.SlotOf(name)], j), name, h.hash(name), fuel)
            == if name in st.live then Some(st.live[name]) else None
    decreases fuel
  {
    hide NodeOk;
    var c := cs[h.SlotOf(name)];
    assert ChainOk(h, st, h.SlotOf(name), c);
    if j == |c| {
      if name in st.live {
        Recorded(h, st, cs, st.live[name]);
      }
    } else {
      InChain(h, st, cs, h.SlotOf(name), c[j]);
      Recorded(h, st, cs, c[j]);
      var k := NextIs(h, st, cs, h.SlotOf(name), c[j]);
      if st.nodes[c[j]].name != name {
        SearchFinds(h, st, cs, name, j + 1, fuel - 1);
      }
    }
  }

  lemma {:induction false} ChainFits(c: seq<Ref>, keys: set<Ref>)
    requires (forall j :: 0 <= j < |c| ==> c[j] in keys) && (forall j, k :: 0 <= j < k < |c| ==> c[j] != c[k])
    ensures |c| <= |keys|
    decreases |c|
  {
    if c != [] {
      ChainFits(c[1..], keys - {c[0]});
    }
  }

  /**
   * Main result: under every interleaving, no two invocations have the same
   * name, and the search through the chains finds exactly what the map of
   * inserts and unlinks has for a name, within as many steps as there are nodes.
   */
  lemma {:induction false} OneInvocationPerName(h: Hashing, n: nat, es: seq<Event>)
    requires h.Valid() && Possible(h, n, es)
    ensures var t := Final(h, n, es).0;
            && (forall r, q :: r in t.nodes && q in t.nodes && t.nodes[r].name == t.nodes[q].name ==> r == q)
            && forall name :: h.SlotOf(name) < |t.heads| &&
                 Search(t.nodes, t.heads[h.SlotOf(name)], name, h.hash(name), |t.nodes|) ==
                   if name in t.live then Some(t.live[name]) else None
  {
    hide Possible, Final, PutterOk, ExpirerOk, NodeOk;
    var (t, cs) := Final(h, n, es);
    forall r, q | r in t.nodes && q in t.nodes && t.nodes[r].name == t.nodes[q].name ensures r == q {
      Recorded(h, t, cs, r);
      Recorded(h, t, cs, q);
    }
    forall name
      ensures h.SlotOf(name) < |t.heads|
      ensures Search(t.nodes, t.heads[h.SlotOf(name)], name, h.hash(name), |t.nodes|) ==
              if name in t.live then Some(t.live[name]) else None
    {
      var c := cs[h.SlotOf(name)];
      HeadOf(h, t, cs, h.SlotOf(name));
      assert ChainOk(h, t, h.SlotOf(name), c);
      forall j | 0 <= j < |c| ensures c[j] in t.nodes.Keys {
        InChain(h, t, cs, h.SlotOf(name), c[j]);
      }
      ChainFits(c, t.nodes.Keys);
      assert |t.nodes| == |t.nodes.Keys|;
      SearchFinds(h, t, cs, name, 0, |t.nodes|);
    }
  }

  /** Main result: a putter at work holds the one live invocation of its name, and a lock that keeps it alive. */
  lemma {:induction false} WorkIsOnTheLiveInvocation(h: Hashing, n: nat, es: seq<Event>, p: nat)
    requires h.Valid() && Possible(h, n, es)
    requires p < |Final(h, n, es).0.putters| && Final(h, n, es).0.putters[p].Using?
    ensures var t := Final(h, n, es).0;
            var x := t.putters[p];
            && x.name in t.live && t.live[x.name] == x.ref && x.ref in t.nodes && t.nodes[x.ref].name == x.name
            && !Enabled(h, t, Unlink) && !Enabled(h, t, StartSweep)
  {
    hide Possible, Final, NodeOk, PassedBy;
    var (t, cs) := Final(h, n, es);
    assert PutterOk(h, t, cs, p, t.putters[p]);
    Recorded(h, t, cs, t.putters[p].ref);
  }

  /** Main result: whoever changes the table is alone: no other thread walks it or works in it. */
  lemma {:induction false} ChangesAreExclusive(h: Hashing, n: nat, es: seq<Event>, p: nat, q: nat)
    requires h.Valid() && Possible(h, n, es)
    requires var t := Final(h, n, es).0; p < |t.putters| && q < |t.putters| && p != q
    ensures var t := Final(h, n, es).0;
            && (t.putters[p].Checking? || t.expirer.Sweeping? ==> t.putters[q].Resting? || t.putters[q].Between?)
            && (t.putters[p].Checking? ==> t.expirer.Sleeping? || t.expirer.Emitting?)
  {
    hide Possible, Final, TableOk, PassedBy;
    var (t, cs) := Final(h, n, es);
    assert PutterOk(h, t, cs, p, t.putters[p]) && PutterOk(h, t, cs, q, t.putters[q]);
  }

  /** Main result: under every interleaving, no step follows a pointer to a freed invocation. */
  lemma {:induction false} NoDanglingPointer(h: Hashing, n: nat, es: seq<Event>, e: Event)
    requires h.Valid() && Possible(h, n, es) && Enabled(h, Final(h, n, es).0, e)
    ensures Safe(h, Final(h, n, es).0, e)
  {
    hide Possible, Final, Valid, Enabled, Safe;
    var (t, cs) := Final(h, n, es);
    StepsAreSafe(h, t, cs, e);
  }
}
