/**
 * The steps of the hash table of invocations of a compute (`aggregator.c`): a
 * chained table under a read-write lock, used by any number of putters and the
 * expiry thread. Every step makes one access to the shared state, a lock is
 * taken or released in one step, and a node that was unlinked is freed with
 * the step. An invariant that says which chain each thread stands in is kept
 * by each kind of step: those that leave the table alone, inserting, unlinking.
 */
module TableSteps {
  import opened Common

  type Ref = nat

  datatype Node = Node(name: string, hash: nat, next: Option<Ref>)

  /** The hash of a name and the slot of a hash; any functions will do. */
  datatype Hashing = Hashing(hash: string -> nat, slot: nat -> nat, size: nat) {
    ghost predicate Valid() { forall h :: slot(h) < size }

    function SlotOf(name: string): nat { slot(hash(name)) }
  }

  /**
   * A putter: searching under the read lock, between the locks, searching again
   * under the write lock, or at work on an invocation under either.
   */
  datatype Putter =
    | Resting
    | Finding(name: string, at: Option<Ref>)
    | Between(name: string)
    | Checking(name: string, at: Option<Ref>)
    | Using(name: string, ref: Ref, exclusive: bool)

  /**
   * The expiry thread: marking under the read lock, writing a metric without
   * any lock, or unlinking under the write lock.
   */
  datatype Expirer =
    | Sleeping
    | Scanning(slot: nat, at: Option<Ref>)
    | Emitting(slot: nat, ref: Ref)
    | Sweeping(slot: nat, last: Option<Ref>, at: Option<Ref>)

  /** Thread 0 is the expiry thread, thread `p + 1` is putter `p`; `live` is the history of inserts and unlinks. */
  datatype State = State(heads: seq<Option<Ref>>, nodes: map<Ref, Node>, readers: set<nat>, writer: Option<nat>,
                         putters: seq<Putter>, expirer: Expirer, live: map<string, Ref>)

  datatype Event =
    | StartPut(p: nat, name: string)
    | FindStep(p: nat)
    | Upgrade(p: nat)
    | WriteLock(p: nat)
    | CheckStep(p: nat)
    | Insert(p: nat, ref: Ref)
    | OutOfMemory(p: nat)
    | FinishPut(p: nat)
    | StartScan
    | ScanStep
    | Emit
    | Resume
    | StartSweep
    | Keep
    | Unlink
    | NextSlot

  // ---------------------------------------------------------------------
  // Steps
  // ---------------------------------------------------------------------

  predicate CanRead(st: State) { st.writer.None? }

  predicate CanWrite(st: State) { st.writer.None? && st.readers == {} }

  predicate Enabled(h: Hashing, st: State, e: Event) {
    match e
    case StartPut(p, _) => p < |st.putters| && st.putters[p].Resting? && CanRead(st)
    case FindStep(p) => p < |st.putters| && st.putters[p].Finding? && st.putters[p].at.Some?
    case Upgrade(p) => p < |st.putters| && st.putters[p].Finding? && st.putters[p].at.None?
    case WriteLock(p) => p < |st.putters| && st.putters[p].Between? && CanWrite(st)
    case CheckStep(p) => p < |st.putters| && st.putters[p].Checking? && st.putters[p].at.Some?
    case Insert(p, ref) => p < |st.putters| && st.putters[p].Checking? && st.putters[p].at.None? && ref !in st.nodes
    case OutOfMemory(p) => p < |st.putters| && st.putters[p].Checking? && st.putters[p].at.None?
    case FinishPut(p) => p < |st.putters| && st.putters[p].Using?
    case StartScan => st.expirer.Sleeping? && CanRead(st) && h.size > 0
    case ScanStep => st.expirer.Scanning?
    case Emit => st.expirer.Scanning? && st.expirer.at.Some?
    case Resume => st.expirer.Emitting? && CanRead(st)
    case StartSweep => st.expirer.Sleeping? && CanWrite(st) && h.size > 0
    case Keep => st.expirer.Sweeping? && st.expirer.at.Some?
    case Unlink => st.expirer.Sweeping? && st.expirer.at.Some?
    case NextSlot => st.expirer.Sweeping? && st.expirer.at.None?
  }

  /** The nodes and slots a step touches. */
  predicate Safe(h: Hashing, st: State, e: Event)
    requires Enabled(h, st, e)
  {
    match e
    case StartPut(_, name) => h.SlotOf(name) < |st.heads|
    case FindStep(p) => st.putters[p].at.value in st.nodes
    case WriteLock(p) => h.SlotOf(st.putters[p].name) < |st.heads|
    case CheckStep(p) => st.putters[p].at.value in st.nodes
    case Insert(p, _) => h.SlotOf(st.putters[p].name) < |st.heads|
    case FinishPut(p) => st.putters[p].ref in st.nodes && st.nodes[st.putters[p].ref].name == st.putters[p].name
    case StartScan => 0 < |st.heads|
    case ScanStep =>
      (st.expirer.at.Some? ==> st.expirer.at.value in st.nodes) &&
      (st.expirer.slot + 1 < h.size ==> st.expirer.slot + 1 < |st.heads|)
    case Emit => st.expirer.at.value in st.nodes
    case Resume => st.expirer.ref in st.nodes
    case StartSweep => 0 < |st.heads|
    case Keep => st.expirer.at.value in st.nodes
    case Unlink =>
      st.expirer.at.value in st.nodes && (st.expirer.last.Some? ==> st.expirer.last.value in st.nodes) &&
      st.expirer.slot < |st.heads|
    case NextSlot => st.expirer.slot + 1 < h.size ==> st.expirer.slot + 1 < |st.heads|
    case Upgrade(_) => true
    case OutOfMemory(_) => true
  }

  function Put(st: State, p: nat, x: Putter): State
    requires p < |st.putters|
  {
    st.(putters := st.putters[p := x])
  }

  predicate IsMatch(n: Node, name: string, hash: nat) {
    n.hash == hash && n.name == name
  }

  function Next(h: Hashing, st: State, e: Event): State
    requires Enabled(h, st, e) && Safe(h, st, e)
  {
    match e
    case StartPut(p, name) =>
      Put(st, p, Finding(name, st.heads[h.SlotOf(name)])).(readers := st.readers + {p + 1})
    case FindStep(p) =>
      var Finding(name, at) := st.putters[p];
      var n := st.nodes[at.value];
      Put(st, p, if IsMatch(n, name, h.hash(name)) then Using(name, at.value, false) else Finding(name, n.next))
    case Upgrade(p) =>
      Put(st, p, Between(st.putters[p].name)).(readers := st.readers - {p + 1})
    case WriteLock(p) =>
      Put(st, p, Checking(st.putters[p].name, st.heads[h.SlotOf(st.putters[p].name)])).(writer := Some(p + 1))
    case CheckStep(p) =>
      var Checking(name, at) := st.putters[p];
      var n := st.nodes[at.value];
      Put(st, p, if IsMatch(n, name, h.hash(name)) then Using(name, at.value, true) else Checking(name, n.next))
    case Insert(p, ref) => Inserted(h, st, p, ref)
    case OutOfMemory(p) => Put(st, p, Resting).(writer := None)
    case FinishPut(p) =>
      if st.putters[p].exclusive then Put(st, p, Resting).(writer := None)
      else Put(st, p, Resting).(readers := st.readers - {p + 1})
    case StartScan => st.(expirer := Scanning(0, st.heads[0]), readers := st.readers + {0})
    case ScanStep =>
      var Scanning(i, at) := st.expirer;
      if at.Some? then st.(expirer := Scanning(i, st.nodes[at.value].next))
      else if i + 1 < h.size then st.(expirer := Scanning(i + 1, st.heads[i + 1]))
      else st.(expirer := Sleeping, readers := st.readers - {0})
    case Emit => st.(expirer := Emitting(st.expirer.slot, st.expirer.at.value), readers := st.readers - {0})
    case Resume => st.(expirer := Scanning(st.expirer.slot, Some(st.expirer.ref)), readers := st.readers + {0})
    case StartSweep => st.(expirer := Sweeping(0, None, st.heads[0]), writer := Some(0))
    case Keep =>
      st.(expirer := Sweeping(st.expirer.slot, st.expirer.at, st.nodes[st.expirer.at.value].next))
    case Unlink => Unlinked(st)
    case NextSlot =>
      if st.expirer.slot + 1 < h.size
      then st.(expirer := Sweeping(st.expirer.slot + 1, None, st.heads[st.expirer.slot + 1]))
      else st.(expirer := Sleeping, writer := None)
  }

  /** The new node goes to the head of its chain. */
  function Inserted(h: Hashing, st: State, p: nat, ref: Ref): State
    requires p < |st.putters| && st.putters[p].Checking? && h.SlotOf(st.putters[p].name) < |st.heads|
  {
    var name := st.putters[p].name;
    var i := h.SlotOf(name);
    Put(st, p, Using(name, ref, true)).(
      nodes := st.nodes[ref := Node(name, h.hash(name), st.heads[i])],
      heads := st.heads[i := Some(ref)],
      live := st.live[name := ref])
  }

  /** The node is taken out of its chain and freed. */
  function Unlinked(st: State): State
    requires st.expirer.Sweeping? && st.expirer.at.Some? && st.expirer.at.value in st.nodes &&
             st.expirer.slot < |st.heads|
    requires st.expirer.last.Some? ==> st.expirer.last.value in st.nodes
  {
    var Sweeping(i, last, at) := st.expirer;
    var n := st.nodes[at.value];
    var nodes := match last case None => st.nodes case Some(l) => st.nodes[l := st.nodes[l].(next := n.next)];
    st.(heads := if last.None? then st.heads[i := n.next] else st.heads,
        nodes := nodes - {at.value},
        expirer := Sweeping(i, last, n.next),
        live := st.live - {n.name})
  }

  // ---------------------------------------------------------------------
  // Invariant
  // ---------------------------------------------------------------------

  function At(c: seq<Ref>, j: nat): Option<Ref> {
    if j < |c| then Some(c[j]) else None
  }

  /** Node `j` of the chain in slot `i` is linked, hashed and on record as it should be. */
  ghost predicate NodeOk(h: Hashing, nodes: map<Ref, Node>, live: map<string, Ref>, i: nat, c: seq<Ref>, j: nat)
    requires j < |c|
  {
    && c[j] in nodes
    && var n := nodes[c[j]];
       && n.next == At(c, j + 1) && n.hash == h.hash(n.name) && h.slot(n.hash) == i
       && n.name in live && live[n.name] == c[j]
  }

  ghost predicate ChainOk(h: Hashing, st: State, i: nat, c: seq<Ref>)
    requires i < |st.heads|
  {
    && st.heads[i] == At(c, 0)
    && (forall j :: 0 <= j < |c| ==> NodeOk(h, st.nodes, st.live, i, c, j))
    && (forall j, k :: 0 <= j < k < |c| ==> c[j] != c[k])
  }

  ghost predicate TableOk(h: Hashing, st: State, cs: seq<seq<Ref>>) {
    && h.Valid() && |cs| == |st.heads| == h.size
    && (forall i :: 0 <= i < |cs| ==> ChainOk(h, st, i, cs[i]))
    && (forall r :: r in st.nodes ==> r in cs[h.slot(st.nodes[r].hash)])
    && (forall n :: n in st.live ==> st.live[n] in st.nodes && st.nodes[st.live[n]].name == n)
  }

  /** None of the first `j` nodes of a chain has the name. */
  ghost predicate PassedBy(nodes: map<Ref, Node>, c: seq<Ref>, j: nat, name: string) {
    j <= |c| && forall k :: 0 <= k < j && c[k] in nodes ==> nodes[c[k]].name != name
  }

  ghost predicate PutterOk(h: Hashing, st: State, cs: seq<seq<Ref>>, p: nat, x: Putter)
    requires |cs| == h.size && h.Valid()
  {
    match x
    case Resting => p + 1 !in st.readers && st.writer != Some(p + 1)
    case Finding(name, at) => p + 1 in st.readers && (at.Some? ==> at.value in cs[h.SlotOf(name)])
    case Between(_) => p + 1 !in st.readers && st.writer != Some(p + 1)
    case Checking(name, at) => st.writer == Some(p + 1)
                               && exists j: nat ::
                                     at == At(cs[h.SlotOf(name)], j) && PassedBy(st.nodes, cs[h.SlotOf(name)], j, name)
    case Using(name, ref, exclusive) =>
      && (if exclusive then st.writer == Some(p + 1) else p + 1 in st.readers)
      && ref in st.nodes && st.nodes[ref].name == name
  }

  ghost predicate ExpirerOk(st: State, cs: seq<seq<Ref>>) {
    match st.expirer
    case Sleeping => 0 !in st.readers && st.writer != Some(0)
    case Scanning(i, at) => 0 in st.readers && i < |cs| && (at.Some? ==> at.value in cs[i])
    case Emitting(i, ref) => 0 !in st.readers && st.writer != Some(0) && i < |cs| && ref in cs[i]
    case Sweeping(i, last, at) => st.writer == Some(0) && i < |cs|
                                  && exists j: nat :: j <= |cs[i]| && at == At(cs[i], j) &&
                                       last == if j == 0 then None else Some(cs[i][j - 1])
  }

  ghost predicate Valid(h: Hashing, st: State, cs: seq<seq<Ref>>) {
    && h.Valid() && |cs| == h.size && TableOk(h, st, cs)
    && (st.writer.Some? ==> st.readers == {})
    && (forall p :: 0 <= p < |st.putters| ==> PutterOk(h, st, cs, p, st.putters[p]))
    && ExpirerOk(st, cs)
  }

  // ---------------------------------------------------------------------
  // Steps that leave the table alone
  // ---------------------------------------------------------------------

  /** No step of any thread follows a pointer to a freed node or reads outside the table. */
  lemma {:induction false} StepsAreSafe(h: Hashing, st: State, cs: seq<seq<Ref>>, e: Event)
    requires Valid(h, st, cs) && Enabled(h, st, e)
    ensures Safe(h, st, e)
  {
    hide PassedBy;
    if e.FindStep? || e.CheckStep? || e.FinishPut? || e.WriteLock? || e.Insert? {
      assert PutterOk(h, st, cs, e.p, st.putters[e.p]);
    }
    forall i, r | 0 <= i < |cs| && r in cs[i] ensures r in st.nodes {
      InChain(h, st, cs, i, r);
    }
  }

  lemma {:induction false} InChain(h: Hashing, st: State, cs: seq<seq<Ref>>, i: nat, r: Ref)
    requires TableOk(h, st, cs) && i < |cs| && r in cs[i]
    ensures r in st.nodes
  {
    assert ChainOk(h, st, i, cs[i]);
    var j :| 0 <= j < |cs[i]| && cs[i][j] == r;
    assert NodeOk(h, st.nodes, st.live, i, cs[i], j);
  }

  /** A walker's next node is in the same chain, one further. */
  lemma {:induction false} WalkOn(h: Hashing, st: State, cs: seq<seq<Ref>>, i: nat, r: Ref) returns (j: nat)
    requires TableOk(h, st, cs) && i < |cs| && r in cs[i]
    ensures j < |cs[i]| && cs[i][j] == r && r in st.nodes && st.nodes[r].next == At(cs[i], j + 1)
    ensures st.nodes[r].hash == h.hash(st.nodes[r].name) && h.slot(st.nodes[r].hash) == i
  {
    assert ChainOk(h, st, i, cs[i]);
    j :| 0 <= j < |cs[i]| && cs[i][j] == r;
    assert NodeOk(h, st.nodes, st.live, i, cs[i], j);
  }

  lemma {:induction false} HeadOf(h: Hashing, st: State, cs: seq<seq<Ref>>, i: nat)
    requires TableOk(h, st, cs) && i < |cs|
    ensures i < |st.heads| && st.heads[i] == At(cs[i], 0)
  {
    assert ChainOk(h, st, i, cs[i]);
  }

  lemma {:induction false} SameTable(h: Hashing, st: State, cs: seq<seq<Ref>>, t: State)
    requires TableOk(h, st, cs) && t.heads == st.heads && t.nodes == st.nodes && t.live == st.live
    ensures TableOk(h, t, cs)
  {
    hide NodeOk;
    forall i | 0 <= i < |cs| ensures ChainOk(h, t, i, cs[i]) {
      assert ChainOk(h, st, i, cs[i]);
    }
  }

  /** The locks thread `me` does not hold look the same before and after. */
  ghost predicate SameFor(st: State, t: State, tid: nat) {
    (tid in st.readers <==> tid in t.readers) && (st.writer == Some(tid) <==> t.writer == Some(tid))
  }

  ghost predicate OnlyLocksOf(st: State, t: State, me: nat) {
    && t.heads == st.heads && t.nodes == st.nodes && t.live == st.live
    && (forall tid :: tid != me ==> SameFor(st, t, tid))
    && (t.writer.Some? ==> t.readers == {})
  }

  lemma {:induction false} PutterKept(h: Hashing, st: State, cs: seq<seq<Ref>>, t: State, q: nat, x: Putter)
    requires h.Valid() && |cs| == h.size && PutterOk(h, st, cs, q, x) && t.nodes == st.nodes && SameFor(st, t, q + 1)
    ensures PutterOk(h, t, cs, q, x)
  {
  }

  lemma {:induction false} ExpirerKept(st: State, cs: seq<seq<Ref>>, t: State)
    requires ExpirerOk(st, cs) && t.expirer == st.expirer && SameFor(st, t, 0)
    ensures ExpirerOk(t, cs)
  {
  }

  predicate PutterEvent(e: Event) {
    e.StartPut? || e.FindStep? || e.Upgrade? || e.WriteLock? || e.CheckStep? || e.OutOfMemory? || e.FinishPut?
  }

  lemma {:induction false} PutterStep(h: Hashing, st: State, cs: seq<seq<Ref>>, e: Event)
    requires Valid(h, st, cs) && Enabled(h, st, e) && Safe(h, st, e) && PutterEvent(e)
    ensures Valid(h, Next(h, st, e), cs)
  {
    hide TableOk, PutterOk, ExpirerOk, SameFor, Next, Safe;
    var t := Next(h, st, e);
    assert PutterOk(h, st, cs, e.p, st.putters[e.p]);
    PutterLocks(h, st, cs, e);
    PutterMoves(h, st, cs, e);
    SameTable(h, st, cs, t);
    forall q | 0 <= q < |t.putters| ensures PutterOk(h, t, cs, q, t.putters[q]) {
      if q != e.p {
        PutterKept(h, st, cs, t, q, st.putters[q]);
      }
    }
    ExpirerKept(st, cs, t);
  }

  lemma {:induction false} PutterLocks(h: Hashing, st: State, cs: seq<seq<Ref>>, e: Event)
    requires h.Valid() && |cs| == h.size && Enabled(h, st, e) && Safe(h, st, e) && PutterEvent(e)
    requires (st.writer.Some? ==> st.readers == {}) && PutterOk(h, st, cs, e.p, st.putters[e.p])
    ensures var t := Next(h, st, e);
            && OnlyLocksOf(st, t, e.p + 1) && t.expirer == st.expirer && |t.putters| == |st.putters|
            && forall q :: 0 <= q < |st.putters| && q != e.p ==> t.putters[q] == st.putters[q]
  {
    hide PassedBy;
  }

  lemma {:induction false} PutterMoves(h: Hashing, st: State, cs: seq<seq<Ref>>, e: Event)
    requires h.Valid() && |cs| == h.size && TableOk(h, st, cs) && Enabled(h, st, e) && Safe(h, st, e) && PutterEvent(e)
    requires PutterOk(h, st, cs, e.p, st.putters[e.p]) && (st.writer.Some? ==> st.readers == {})
    ensures PutterOk(h, Next(h, st, e), cs, e.p, Next(h, st, e).putters[e.p])
  {
    hide TableOk, ChainOk, NodeOk;
    var t := Next(h, st, e);
    match e
    case StartPut(p, name) => HeadOf(h, st, cs, h.SlotOf(name));
    case FindStep(p) =>
      var j := WalkOn(h, st, cs, h.SlotOf(st.putters[p].name), st.putters[p].at.value);
    case Upgrade(_) =>
    case WriteLock(p) =>
      var c := cs[h.SlotOf(st.putters[p].name)];
      HeadOf(h, st, cs, h.SlotOf(st.putters[p].name));
      assert t.putters[p].at == At(c, 0) && PassedBy(t.nodes, c, 0, st.putters[p].name);
    case CheckStep(p) => CheckAdvances(h, st, cs, p);
    case OutOfMemory(_) =>
    case FinishPut(_) =>
  }

  lemma {:induction false} CheckAdvances(h: Hashing, st: State, cs: seq<seq<Ref>>, p: nat)
    requires TableOk(h, st, cs) && p < |st.putters| && st.putters[p].Checking? && st.putters[p].at.Some?
    requires PutterOk(h, st, cs, p, st.putters[p]) && st.putters[p].at.value in st.nodes
    ensures PutterOk(h, Next(h, st, CheckStep(p)), cs, p, Next(h, st, CheckStep(p)).putters[p])
  {
    hide NodeOk;
    var Checking(name, at) := st.putters[p];
    var c := cs[h.SlotOf(name)];
    var j: nat :| at == At(c, j) && PassedBy(st.nodes, c, j, name);
    assert ChainOk(h, st, h.SlotOf(name), c);
    var k := WalkOn(h, st, cs, h.SlotOf(name), at.value);
    var n := st.nodes[at.value];
    if !IsMatch(n, name, h.hash(name)) {
      assert n.next == At(c, j + 1) && PassedBy(st.nodes, c, j + 1, name);
    }
  }

  predicate ExpirerEvent(e: Event) {
    e.StartScan? || e.ScanStep? || e.Emit? || e.Resume? || e.StartSweep? || e.Keep? || e.NextSlot?
  }

  lemma {:induction false} ExpirerStep(h: Hashing, st: State, cs: seq<seq<Ref>>, e: Event)
    requires Valid(h, st, cs) && Enabled(h, st, e) && Safe(h, st, e) && ExpirerEvent(e)
    ensures Valid(h, Next(h, st, e), cs)
  {
    hide TableOk, PutterOk, ExpirerOk, SameFor, Next, Safe;
    var t := Next(h, st, e);
    ExpirerLocks(h, st, cs, e);
    ExpirerMoves(h, st, cs, e);
    SameTable(h, st, cs, t);
    forall q | 0 <= q < |t.putters| ensures PutterOk(h, t, cs, q, t.putters[q]) {
      PutterKept(h, st, cs, t, q, st.putters[q]);
    }
  }

  lemma {:induction false} ExpirerLocks(h: Hashing, st: State, cs: seq<seq<Ref>>, e: Event)
    requires Enabled(h, st, e) && Safe(h, st, e) && ExpirerEvent(e) && ExpirerOk(st, cs) &&
             (st.writer.Some? ==> st.readers == {})
    ensures OnlyLocksOf(st, Next(h, st, e), 0) && Next(h, st, e).putters == st.putters
  {
  }

  lemma {:induction false} ExpirerMoves(h: Hashing, st: State, cs: seq<seq<Ref>>, e: Event)
    requires |cs| == h.size && TableOk(h, st, cs) && Enabled(h, st, e) && Safe(h, st, e) && ExpirerEvent(e) &&
             ExpirerOk(st, cs)
    requires st.writer.Some? ==> st.readers == {}
    ensures ExpirerOk(Next(h, st, e), cs)
  {
    hide TableOk, ChainOk, NodeOk;
    var t := Next(h, st, e);
    match e
    case StartScan => HeadOf(h, st, cs, 0);
    case ScanStep =>
      if st.expirer.at.Some? {
        var j := WalkOn(h, st, cs, st.expirer.slot, st.expirer.at.value);
      } else if st.expirer.slot + 1 < h.size {
        HeadOf(h, st, cs, st.expirer.slot + 1);
      }
    case Emit =>
    case Resume =>
    case StartSweep =>
      HeadOf(h, st, cs, 0);
      assert t.expirer.at == At(cs[0], 0);
    case Keep => KeepAdvances(h, st, cs);
    case NextSlot =>
      if st.expirer.slot + 1 < h.size {
        HeadOf(h, st, cs, st.expirer.slot + 1);
        assert t.expirer.at == At(cs[st.expirer.slot + 1], 0);
      }
  }

  lemma {:induction false} KeepAdvances(h: Hashing, st: State, cs: seq<seq<Ref>>)
    requires TableOk(h, st, cs) && Enabled(h, st, Keep) && Safe(h, st, Keep) && ExpirerOk(st, cs)
    ensures ExpirerOk(Next(h, st, Keep), cs)
  {
    hide NodeOk;
    var c := cs[st.expirer.slot];
    var j: nat :| j <= |c| && st.expirer.at == At(c, j) && st.expirer.last == if j == 0 then None else Some(c[j - 1]);
    assert ChainOk(h, st, st.expirer.slot, c);
    var k := WalkOn(h, st, cs, st.expirer.slot, st.expirer.at.value);
    assert Next(h, st, Keep).expirer.at == At(c, j + 1);
  }

  // ---------------------------------------------------------------------
  // Inserting
  // ---------------------------------------------------------------------

  /** A search under the write lock that ends without a match: the name has no invocation. */
  lemma {:induction false} NotThere(h: Hashing, st: State, cs: seq<seq<Ref>>, p: nat)
    requires TableOk(h, st, cs) && p < |st.putters| && st.putters[p].Checking? && st.putters[p].at.None?
    requires PutterOk(h, st, cs, p, st.putters[p])
    ensures st.putters[p].name !in st.live
  {
    var name := st.putters[p].name;
    var c := cs[h.SlotOf(name)];
    var j: nat :| None == At(c, j) && PassedBy(st.nodes, c, j, name);
    if name in st.live {
      Recorded(h, st, cs, st.live[name]);
    }
  }

  /** Every node is in the chain of its name, under its hash, and on record. */
  lemma {:induction false} Recorded(h: Hashing, st: State, cs: seq<seq<Ref>>, r: Ref)
    requires TableOk(h, st, cs) && r in st.nodes
    ensures var n := st.nodes[r];
            n.hash == h.hash(n.name) && r in cs[h.SlotOf(n.name)] && n.name in st.live && st.live[n.name] == r
  {
    var i := h.slot(st.nodes[r].hash);
    assert ChainOk(h, st, i, cs[i]);
    var j :| 0 <= j < |cs[i]| && cs[i][j] == r;
    assert NodeOk(h, st.nodes, st.live, i, cs[i], j);
  }

  function AfterInsert(h: Hashing, cs: seq<seq<Ref>>, name: string, ref: Ref): seq<seq<Ref>>
    requires h.SlotOf(name) < |cs|
  {
    cs[h.SlotOf(name) := [ref] + cs[h.SlotOf(name)]]
  }

  lemma {:induction false} OtherChain(h: Hashing, st: State, t: State, i: nat, c: seq<Ref>, name: string, ref: Ref)
    requires i < |st.heads| == |t.heads| && t.heads[i] == st.heads[i] && ChainOk(h, st, i, c)
    requires ref !in st.nodes && name !in st.live
    requires t.live == st.live[name := ref] && forall r :: r in st.nodes ==> r in t.nodes && t.nodes[r] == st.nodes[r]
    ensures ChainOk(h, t, i, c)
  {
    forall j | 0 <= j < |c| ensures NodeOk(h, t.nodes, t.live, i, c, j) {
      assert NodeOk(h, st.nodes, st.live, i, c, j);
    }
  }

  lemma {:induction false} GrownChain(h: Hashing, st: State, t: State, i: nat, c: seq<Ref>, name: string, ref: Ref)
    requires i < |st.heads| == |t.heads| && ChainOk(h, st, i, c) && i == h.SlotOf(name)
    requires ref !in st.nodes && name !in st.live && t.heads[i] == Some(ref)
    requires t.live == st.live[name := ref] && t.nodes == st.nodes[ref := Node(name, h.hash(name), st.heads[i])]
    ensures ChainOk(h, t, i, [ref] + c)
  {
    var d := [ref] + c;
    forall j | 0 <= j < |d| ensures NodeOk(h, t.nodes, t.live, i, d, j) {
      if j > 0 {
        assert NodeOk(h, st.nodes, st.live, i, c, j - 1);
      }
    }
    forall j | 0 <= j < |c| ensures c[j] != ref {
      assert NodeOk(h, st.nodes, st.live, i, c, j);
    }
  }

  lemma {:induction false} InsertTable(h: Hashing, st: State, cs: seq<seq<Ref>>, p: nat, ref: Ref)
    requires TableOk(h, st, cs) && p < |st.putters| && st.putters[p].Checking? && ref !in st.nodes
    requires st.putters[p].name !in st.live
    ensures TableOk(h, Inserted(h, st, p, ref), AfterInsert(h, cs, st.putters[p].name, ref))
  {
    hide ChainOk;
    var t, ds := Inserted(h, st, p, ref), AfterInsert(h, cs, st.putters[p].name, ref);
    forall i | 0 <= i < |ds| ensures ChainOk(h, t, i, ds[i]) {
      if i == h.SlotOf(st.putters[p].name) {
        GrownChain(h, st, t, i, cs[i], st.putters[p].name, ref);
      } else {
        OtherChain(h, st, t, i, cs[i], st.putters[p].name, ref);
      }
    }
    forall r | r in t.nodes ensures r in ds[h.slot(t.nodes[r].hash)] {
      assert r != ref ==> r in cs[h.slot(st.nodes[r].hash)];
    }
  }

  lemma {:induction false} InsertStep(h: Hashing, st: State, cs: seq<seq<Ref>>, p: nat, ref: Ref)
    requires Valid(h, st, cs) && Enabled(h, st, Insert(p, ref)) && Safe(h, st, Insert(p, ref))
    ensures Valid(h, Inserted(h, st, p, ref), AfterInsert(h, cs, st.putters[p].name, ref))
  {
    hide TableOk, PassedBy;
    var name := st.putters[p].name;
    HeadOf(h, st, cs, h.SlotOf(name));
    var t, ds := Inserted(h, st, p, ref), AfterInsert(h, cs, name, ref);
    assert PutterOk(h, st, cs, p, st.putters[p]);
    NotThere(h, st, cs, p);
    InsertTable(h, st, cs, p, ref);
    forall q | 0 <= q < |t.putters| ensures PutterOk(h, t, ds, q, t.putters[q]) {
      assert PutterOk(h, st, cs, q, st.putters[q]);
    }
  }

  // ---------------------------------------------------------------------
  // Unlinking
  // ---------------------------------------------------------------------

  ghost function Position(c: seq<Ref>, r: Ref): (j: nat)
    requires r in c
    ensures j < |c| && c[j] == r
  {
    var j :| 0 <= j < |c| && c[j] == r;
    j
  }

  ghost function AfterUnlink(cs: seq<seq<Ref>>, i: nat, r: Ref): (ds: seq<seq<Ref>>)
    requires i < |cs| && r in cs[i]
    ensures |ds| == |cs| && forall k :: 0 <= k < |cs| && k != i ==> ds[k] == cs[k]
  {
    var j := Position(cs[i], r);
    cs[i := cs[i][..j] + cs[i][j + 1..]]
  }

  /** The expiry thread stands on a node of the chain, right behind `last`. */
  lemma {:induction false} SweepPosition(h: Hashing, st: State, cs: seq<seq<Ref>>)
    requires TableOk(h, st, cs) && ExpirerOk(st, cs) && st.expirer.Sweeping? && st.expirer.at.Some?
    ensures var Sweeping(i, last, at) := st.expirer;
            && at.value in cs[i]
            && var j := Position(cs[i], at.value);
               last == if j == 0 then None else Some(cs[i][j - 1])
  {
    hide NodeOk;
    var c := cs[st.expirer.slot];
    assert ChainOk(h, st, st.expirer.slot, c);
    var j: nat :| j <= |c| && st.expirer.at == At(c, j) && st.expirer.last == if j == 0 then None else Some(c[j - 1]);
    var k := Position(c, st.expirer.at.value);
  }

  lemma {:induction false} NextIs(h: Hashing, st: State, cs: seq<seq<Ref>>, i: nat, r: Ref) returns (j: nat)
    requires TableOk(h, st, cs) && i < |cs| && r in cs[i]
    ensures j == Position(cs[i], r) && r in st.nodes && st.nodes[r].next == At(cs[i], j + 1)
  {
    hide NodeOk;
    assert ChainOk(h, st, i, cs[i]);
    j := WalkOn(h, st, cs, i, r);
  }

  /** A chain the unlinked node is not in. */
  lemma {:induction false} UntouchedChain(h: Hashing, st: State, t: State, i: nat, c: seq<Ref>, name: string)
    requires i < |st.heads| == |t.heads| && t.heads[i] == st.heads[i] && ChainOk(h, st, i, c) &&
             t.live == st.live - {name}
    requires forall r :: r in c ==>
               r in t.nodes && r in st.nodes && t.nodes[r] == st.nodes[r] && st.nodes[r].name != name
    ensures ChainOk(h, t, i, c)
  {
    forall j | 0 <= j < |c| ensures NodeOk(h, t.nodes, t.live, i, c, j) {
      assert NodeOk(h, st.nodes, st.live, i, c, j);
    }
  }

  /** The chain it is taken out of. */
  lemma {:induction false} ShrunkChain(h: Hashing, st: State, t: State, i: nat, c: seq<Ref>, j: nat)
    requires i < |st.heads| == |t.heads| && ChainOk(h, st, i, c) && j < |c| && c[j] in st.nodes
    requires t.heads[i] == if j == 0 then At(c, 1) else st.heads[i]
    requires t.live == st.live - {st.nodes[c[j]].name}
    requires forall k :: 0 <= k < |c| && k != j ==>
               c[k] in t.nodes && c[k] in st.nodes &&
                 t.nodes[c[k]] == if k + 1 == j then st.nodes[c[k]].(next := At(c, j + 1)) else st.nodes[c[k]]
    ensures ChainOk(h, t, i, c[..j] + c[j + 1..])
  {
    var d := c[..j] + c[j + 1..];
    assert NodeOk(h, st.nodes, st.live, i, c, j);
    forall k | 0 <= k < |d| ensures NodeOk(h, t.nodes, t.live, i, d, k) {
      assert NodeOk(h, st.nodes, st.live, i, c, if k < j then k else k + 1);
    }
  }

  lemma {:induction false} UnlinkOwn(h: Hashing, st: State, cs: seq<seq<Ref>>)
    requires TableOk(h, st, cs) && ExpirerOk(st, cs)
    requires Enabled(h, st, Unlink) && Safe(h, st, Unlink) && st.expirer.at.value in cs[st.expirer.slot]
    ensures ChainOk(h, Unlinked(st), st.expirer.slot,
                    AfterUnlink(cs, st.expirer.slot, st.expirer.at.value)[st.expirer.slot])
  {
    hide NodeOk, Position;
    var Sweeping(i, last, at) := st.expirer;
    var t := Unlinked(st);
    var c := cs[i];
    assert ChainOk(h, st, i, c);
    SweepPosition(h, st, cs);
    var j := NextIs(h, st, cs, i, at.value);
    forall m | 0 <= m < |c| && m != j
      ensures c[m] in st.nodes && c[m] in t.nodes
      ensures t.nodes[c[m]] == if m + 1 == j then st.nodes[c[m]].(next := At(c, j + 1)) else st.nodes[c[m]]
    {
      InChain(h, st, cs, i, c[m]);
    }
    ShrunkChain(h, st, t, i, c, j);
  }

  lemma {:induction false} UnlinkOther(h: Hashing, st: State, cs: seq<seq<Ref>>, k: nat)
    requires TableOk(h, st, cs) && ExpirerOk(st, cs) && k < |cs|
    requires Enabled(h, st, Unlink) && Safe(h, st, Unlink) && k != st.expirer.slot &&
             st.expirer.at.value in cs[st.expirer.slot]
    ensures ChainOk(h, Unlinked(st), k, cs[k])
  {
    hide NodeOk;
    var Sweeping(i, last, at) := st.expirer;
    var t := Unlinked(st);
    assert ChainOk(h, st, k, cs[k]);
    SweepPosition(h, st, cs);
    forall r | r in cs[k]
      ensures r in st.nodes && r in t.nodes && t.nodes[r] == st.nodes[r] && st.nodes[r].name != st.nodes[at.value].name
    {
      OtherSlot(h, st, cs, i, k, at.value, r);
      if last.Some? {
        OtherSlot(h, st, cs, i, k, last.value, r);
      }
    }
    UntouchedChain(h, st, t, k, cs[k], st.nodes[at.value].name);
  }

  lemma {:induction false} OtherSlot(h: Hashing, st: State, cs: seq<seq<Ref>>, i: nat, k: nat, r: Ref, other: Ref)
    requires TableOk(h, st, cs) && i < |cs| && k < |cs| && i != k && r in cs[i] && other in cs[k]
    ensures r in st.nodes && other in st.nodes && r != other && st.nodes[r].name != st.nodes[other].name
  {
    hide TableOk;
    var a := WalkOn(h, st, cs, i, r);
    var b := WalkOn(h, st, cs, k, other);
  }

  lemma {:induction false} UnlinkTable(h: Hashing, st: State, cs: seq<seq<Ref>>)
    requires TableOk(h, st, cs) && ExpirerOk(st, cs) && Enabled(h, st, Unlink) && Safe(h, st, Unlink)
    requires st.expirer.at.value in cs[st.expirer.slot]
    ensures TableOk(h, Unlinked(st), AfterUnlink(cs, st.expirer.slot, st.expirer.at.value))
  {
    hide ChainOk, AfterUnlink, Position;
    var Sweeping(i, last, at) := st.expirer;
    var t, ds := Unlinked(st), AfterUnlink(cs, i, at.value);
    forall k | 0 <= k < |ds| ensures ChainOk(h, t, k, ds[k]) {
      if k == i {
        UnlinkOwn(h, st, cs);
      } else {
        UnlinkOther(h, st, cs, k);
      }
    }
    forall r | r in t.nodes ensures r in ds[h.slot(t.nodes[r].hash)] {
      StillListed(cs, i, at.value, h.slot(st.nodes[r].hash), r);
    }
    forall n | n in t.live ensures t.live[n] in t.nodes && t.nodes[t.live[n]].name == n {
      assert st.live[n] in st.nodes && st.nodes[st.live[n]].name == n;
    }
  }

  lemma {:induction false} StillListed(cs: seq<seq<Ref>>, i: nat, gone: Ref, k: nat, r: Ref)
    requires i < |cs| && k < |cs| && gone in cs[i] && r in cs[k] && r != gone
    ensures r in AfterUnlink(cs, i, gone)[k]
  {
    if k == i {
      var j := Position(cs[i], gone);
      var m :| 0 <= m < |cs[i]| && cs[i][m] == r;
      assert AfterUnlink(cs, i, gone)[i][if m < j then m else m - 1] == r;
    }
  }

  lemma {:induction false} UnlinkStep(h: Hashing, st: State, cs: seq<seq<Ref>>)
    requires Valid(h, st, cs) && Enabled(h, st, Unlink) && Safe(h, st, Unlink) &&
             st.expirer.at.value in cs[st.expirer.slot]
    ensures Valid(h, Unlinked(st), AfterUnlink(cs, st.expirer.slot, st.expirer.at.value))
  {
    hide TableOk, PassedBy;
    var Sweeping(i, last, at) := st.expirer;
    var t, ds := Unlinked(st), AfterUnlink(cs, i, at.value);
    UnlinkTable(h, st, cs);
    SweepPosition(h, st, cs);
    var j := Position(cs[i], at.value);
    var k := NextIs(h, st, cs, i, at.value);
    assert t.expirer.at == At(ds[i], j) && t.expirer.last == if j == 0 then None else Some(ds[i][j - 1]);
    forall q | 0 <= q < |t.putters| ensures PutterOk(h, t, ds, q, t.putters[q]) {
      assert PutterOk(h, st, cs, q, st.putters[q]);
    }
  }
}
