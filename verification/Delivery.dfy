/**
 * From `server_send` to the disposal of a batch (`server.c`): servers with
 * bounded queues, which several may share, back each other up; metrics are
 * queued, stalled, moved to a secondary, dropped, sent in batches or put back.
 */
module Delivery {
  import opened Queues
  import opened Senders

  datatype Line = Line(cap: nat, items: seq<string>) {
    ghost predicate Valid() { 1 <= cap && |items| <= cap }

    function Free(): nat
      requires |items| <= cap
    {
      cap - |items|
    }
  }

  datatype Server = Server(line: nat, secondaries: seq<nat>, failures: seq<nat>, bsize: nat, threshold: nat,
                           running: bool, maxstalls: nat, stallseq: nat, dropped: nat, stalls: nat, requeue: nat)

  /** A server has failed when every one of its connections has. */
  predicate Failed(s: Server) {
    s.failures != [] && 0 !in s.failures
  }

  datatype Net = Net(lines: seq<Line>, servers: seq<Server>) {
    ghost predicate Valid() {
      && (forall q :: 0 <= q < |lines| ==> lines[q].Valid())
      && (forall s :: 0 <= s < |servers| ==> Wired(servers[s]) && servers[s].stallseq <= servers[s].maxstalls)
    }

    predicate Wired(s: Server) {
      s.line < |lines| && forall i :: 0 <= i < |s.secondaries| ==> s.secondaries[i] < |servers|
    }

    /** Free room in the queue of a server. */
    function Room(s: nat): nat
      requires Valid() && s < |servers|
    {
      lines[servers[s].line].Free()
    }
  }

  // ---------------------------------------------------------------------
  // server_send
  // ---------------------------------------------------------------------

  /** Can secondary `t` take over from server `s`? */
  predicate Eligible(net: Net, s: nat, t: nat)
    requires s < |net.servers| && t < |net.servers|
  {
    t != s && !Failed(net.servers[s]) && net.servers[t].running
  }

  /** The queue chosen after looking at the first `k` secondaries, and the free room to beat. */
  function Choose(net: Net, s: nat, k: nat): (r: (nat, nat))
    requires net.Valid() && s < |net.servers| && k <= |net.servers[s].secondaries|
    ensures r.0 < |net.lines|
  {
    var me := net.servers[s];
    if k == 0 then (me.line, net.Room(s) + 4 * me.bsize)
    else
      var best := Choose(net, s, k - 1);
      var t := me.secondaries[k - 1];
      if Eligible(net, s, t) && net.Room(t) > best.1 then (net.servers[t].line, net.Room(t)) else best
  }

  predicate Overloaded(net: Net, s: nat)
    requires net.Valid() && s < |net.servers|
  {
    net.servers[s].secondaries != [] && (Failed(net.servers[s]) || net.Room(s) < net.servers[s].threshold)
  }

  predicate Backed(net: Net, s: nat)
    requires net.Valid() && s < |net.servers|
  {
    exists i :: 0 <= i < |net.servers[s].secondaries| && !Failed(net.servers[net.servers[s].secondaries[i]])
  }

  /** What sending does: the new state, whether the metric was taken, and what fell out of a queue. */
  datatype Sending = Sending(net: Net, taken: bool, evicted: seq<string>)

  function Pushed(net: Net, q: nat, d: string): Net
    requires q < |net.lines| && net.lines[q].Valid()
  {
    net.(lines := net.lines[q := Line(net.lines[q].cap, Enqueued(net.lines[q].items, net.lines[q].cap, d))])
  }

  function Sent(net: Net, s: nat, d: string, force: bool): Sending
    requires net.Valid() && s < |net.servers|
  {
    var me := net.servers[s];
    var q := if !force && Overloaded(net, s) then Choose(net, s, |me.secondaries|).0 else me.line;
    if q != me.line then
      var rec := me.(requeue := me.requeue + if Failed(me) then 0 else 1);
      Sending(Pushed(net.(servers := net.servers[s := rec]), q, d), true, [])
    else if net.Room(s) == 0 then
      if (Failed(me) && (force || !Backed(net, s))) || force || me.stallseq == me.maxstalls then
        Sending(Pushed(net.(servers := net.servers[s := me.(dropped := me.dropped + 1)]), me.line, d), true,
                net.lines[me.line].items[..1])
      else
        Sending(net.(servers := net.servers[s := me.(stallseq := me.stallseq + 1, stalls := me.stalls + 1)]), false, [])
    else
      Sending(Pushed(net.(servers := net.servers[s := me.(stallseq := 0)]), me.line, d), true, [])
  }

  /** What `Choose` is after: the own queue, or the roomiest of the eligible ones that beat the bar. */
  lemma {:induction false} ChooseIsBest(net: Net, s: nat, k: nat)
    requires net.Valid() && s < |net.servers| && k <= |net.servers[s].secondaries|
    ensures var me := net.servers[s];
            var bar := net.Room(s) + 4 * me.bsize;
            var best := Choose(net, s, k);
            && (best == (me.line, bar) || (best.1 > bar && best.1 == net.lines[best.0].Free() && best.0 != me.line))
            && (forall i :: 0 <= i < k && Eligible(net, s, me.secondaries[i]) ==> net.Room(me.secondaries[i]) <= best.1)
            && (best.0 != me.line ==>
                  exists i ::
                    0 <= i < k && Eligible(net, s, me.secondaries[i]) && net.servers[me.secondaries[i]].line == best.0)
  {
    if k > 0 {
      ChooseIsBest(net, s, k - 1);
    }
  }

  ghost predicate Appends(net: Net, next: Net, q: nat, d: string)
    requires q < |net.lines|
  {
    next.lines == net.lines[q := Line(net.lines[q].cap, net.lines[q].items + [d])]
  }

  /** The metric went to the queue of a running secondary that has more room by over four batches. */
  ghost predicate MovedTo(net: Net, s: nat, d: string, r: Sending, t: nat)
    requires net.Valid() && s < |net.servers|
  {
    var me := net.servers[s];
    && t in me.secondaries && t < |net.servers| && t != s && net.servers[t].running
    && net.Room(t) > net.Room(s) + 4 * me.bsize
    && r.taken && r.evicted == [] && Appends(net, r.net, net.servers[t].line, d)
    && r.net.servers == net.servers[s := me.(requeue := me.requeue + 1)]
  }

  ghost predicate Queued(net: Net, s: nat, d: string, r: Sending)
    requires net.Valid() && s < |net.servers|
  {
    var me := net.servers[s];
    && net.Room(s) > 0 && r.taken && r.evicted == [] && Appends(net, r.net, me.line, d)
    && r.net.servers == net.servers[s := me.(stallseq := 0)]
  }

  ghost predicate DroppedOldest(net: Net, s: nat, d: string, r: Sending)
    requires net.Valid() && s < |net.servers|
  {
    var me := net.servers[s];
    var items := net.lines[me.line].items;
    && net.Room(s) == 0 && r.taken && r.evicted == [items[0]]
    && r.net.lines == net.lines[me.line := Line(|items|, items[1..] + [d])]
    && r.net.servers == net.servers[s := me.(dropped := me.dropped + 1)]
  }

  ghost predicate Stalled(net: Net, s: nat, r: Sending)
    requires net.Valid() && s < |net.servers|
  {
    var me := net.servers[s];
    && net.Room(s) == 0 && !r.taken && r.evicted == [] && r.net.lines == net.lines
    && r.net.servers == net.servers[s := me.(stallseq := me.stallseq + 1, stalls := me.stalls + 1)]
  }

  /**
   * The four fates of a metric, and when they are possible. A full queue drops
   * exactly one counted metric, a secondary's queue never drops any, and a
   * failed server is never relieved by its secondaries.
   */
  lemma {:induction false} FatesOfAMetric(net: Net, s: nat, d: string, force: bool)
    requires net.Valid() && s < |net.servers|
    ensures var me := net.servers[s];
            var r := Sent(net, s, d, force);
            || Queued(net, s, d, r)
            || (DroppedOldest(net, s, d, r) &&
                (force || me.stallseq == me.maxstalls || (Failed(me) && !Backed(net, s))))
            || (Stalled(net, s, r) && !force && me.stallseq < me.maxstalls && (!Failed(me) || Backed(net, s)))
            || (!force && !Failed(me) && net.Room(s) < me.threshold && exists t :: MovedTo(net, s, d, r, t))
  {
    var me := net.servers[s];
    ChooseIsBest(net, s, |me.secondaries|);
    var best := Choose(net, s, |me.secondaries|);
    if !force && Overloaded(net, s) && best.0 != me.line {
      var i :|
        && 0 <= i < |me.secondaries| && Eligible(net, s, me.secondaries[i])
        && net.servers[me.secondaries[i]].line == best.0;
      assert MovedTo(net, s, d, Sent(net, s, d, force), me.secondaries[i]);
    }
  }

  /**
   * Exactly when a metric moves to a secondary. The server's own failure rules
   * that out, so a failed server is never relieved this way.
   */
  lemma {:induction false} MovedExactlyWhen(net: Net, s: nat, d: string, force: bool)
    requires net.Valid() && s < |net.servers|
    ensures var me := net.servers[s];
            (exists t :: MovedTo(net, s, d, Sent(net, s, d, force), t)) <==>
            && !force && !Failed(me) && net.Room(s) < me.threshold
            && exists i :: 0 <= i < |me.secondaries| && me.secondaries[i] != s
                           && net.servers[me.secondaries[i]].running
                           && net.Room(me.secondaries[i]) > net.Room(s) + 4 * me.bsize
  {
    var me := net.servers[s];
    var r := Sent(net, s, d, force);
    ChooseIsBest(net, s, |me.secondaries|);
    var best := Choose(net, s, |me.secondaries|);
    if !force && Overloaded(net, s) && best.0 != me.line {
      var i :|
        && 0 <= i < |me.secondaries| && Eligible(net, s, me.secondaries[i])
        && net.servers[me.secondaries[i]].line == best.0;
      assert MovedTo(net, s, d, r, me.secondaries[i]);
    } else {
      assert r.net.servers[s].requeue == me.requeue;
    }
    assert forall i :: 0 <= i < |me.secondaries| ==>
      (Eligible(net, s, me.secondaries[i]) <==>
       me.secondaries[i] != s && !Failed(me) && net.servers[me.secondaries[i]].running);
  }

  /** A failed server with a full queue, next to a secondary that runs, is fine and has an empty queue. */
  function FailedServer(): Net {
    Net([Line(1, ["a"]), Line(100, [])],
        [Server(0, [1], [1], 1, 1, true, 4, 0, 0, 0, 0), Server(1, [], [0], 1, 1, true, 4, 0, 0, 0, 0)])
  }

  /** The metric is not moved there, although there is room for over four batches: the client stalls. */
  lemma {:induction false} FailedServerStalls()
    ensures var net := FailedServer();
            && net.Valid() && Failed(net.servers[0]) && !Failed(net.servers[1]) && net.servers[1].running
            && net.Room(1) > net.Room(0) + 4 * net.servers[0].bsize && net.Room(0) < net.servers[0].threshold
            && Stalled(net, 0, Sent(net, 0, "b", false))
  {
    var net := FailedServer();
    assert net.Wired(net.servers[0]) && net.Wired(net.servers[1]);
    FatesOfAMetric(net, 0, "b", false);
    assert !Failed(net.servers[net.servers[0].secondaries[0]]);
  }

  lemma {:induction false} SentKeepsValid(net: Net, s: nat, d: string, force: bool)
    requires net.Valid() && s < |net.servers|
    ensures var r := Sent(net, s, d, force);
            r.net.Valid() && |r.net.servers| == |net.servers| && |r.net.lines| == |net.lines|
  {
    hide Sent, Failed, Backed;
    FatesOfAMetric(net, s, d, force);
    var r := Sent(net, s, d, force);
    if t :| !Failed(net.servers[s]) && MovedTo(net, s, d, r, t) {
      KeepsValid(net, r.net, s);
    } else {
      KeepsValid(net, r.net, s);
    }
  }

  lemma {:induction false} KeepsValid(net: Net, next: Net, s: nat)
    requires net.Valid() && s < |net.servers| == |next.servers| && |next.lines| == |net.lines|
    requires forall q :: 0 <= q < |next.lines| ==> next.lines[q].Valid()
    requires forall i :: 0 <= i < |net.servers| && i != s ==> next.servers[i] == net.servers[i]
    requires next.servers[s].line == net.servers[s].line && next.servers[s].secondaries == net.servers[s].secondaries
    requires next.servers[s].stallseq <= next.servers[s].maxstalls
    ensures next.Valid()
  {
    forall i | 0 <= i < |next.servers|
      ensures next.Wired(next.servers[i]) && next.servers[i].stallseq <= next.servers[i].maxstalls
    {
      assert net.Wired(net.servers[i]);
    }
  }

  /** Do all of these, sent one after the other, stall? */
  ghost predicate AllStall(net: Net, s: nat, ds: seq<string>)
    requires net.Valid() && s < |net.servers|
    decreases |ds|
  {
    ds != [] ==>
      var r := Sent(net, s, ds[0], false);
      !r.taken && (SentKeepsValid(net, s, ds[0], false); AllStall(r.net, s, ds[1..]))
  }

  /** A server stalls its clients at most `maxstalls` times in a row. */
  lemma {:induction false} StallsAreBounded(net: Net, s: nat, ds: seq<string>)
    requires net.Valid() && s < |net.servers| && AllStall(net, s, ds)
    ensures |ds| + net.servers[s].stallseq <= net.servers[s].maxstalls
    decreases |ds|
  {
    hide Sent, Failed, Backed;
    if ds != [] {
      SentKeepsValid(net, s, ds[0], false);
      FatesOfAMetric(net, s, ds[0], false);
      StallsAreBounded(Sent(net, s, ds[0], false).net, s, ds[1..]);
    }
  }

  // ---------------------------------------------------------------------
  // Batches in flight, and whole runs
  // ---------------------------------------------------------------------

  /**
   * What a connection's sender holds: nothing, a batch being written, or what
   * is left of it to put back. `synced` is how much of the batch the last
   * successful flush covered, `back` and `lost` what became of the rest so far.
   */
  datatype Flight =
    | Idle
    | Writing(source: nat, line: nat, batch: seq<string>, written: nat, synced: nat)
    | Returning(source: nat, line: nat, batch: seq<string>, synced: nat, back: seq<string>, lost: seq<string>,
                rest: seq<string>)

  /** A batch that is done with: the connection stayed open, or the rest was put back or dropped. */
  datatype Journey = Journey(batch: seq<string>, synced: nat, open: bool, back: seq<string>, lost: seq<string>)

  function Carried(f: Flight): multiset<string> {
    match f
    case Idle => multiset{}
    case Writing(_, _, batch, _, _) => multiset(batch)
    case Returning(_, _, _, _, _, _, rest) => multiset(rest)
  }

  function BackOf(f: Flight): multiset<string> {
    if f.Returning? then multiset(f.back) else multiset{}
  }

  function LostOf(f: Flight): multiset<string> {
    if f.Returning? then multiset(f.lost) else multiset{}
  }

  function FreedOf(f: Flight): multiset<string> {
    if f.Returning? && f.synced <= |f.batch| then multiset(f.batch[..f.synced]) else multiset{}
  }

  function BackIn(j: Journey): multiset<string> { multiset(j.back) }

  function LostIn(j: Journey): multiset<string> { multiset(j.lost) }

  function FreedIn(j: Journey): multiset<string> {
    if j.open || j.synced > |j.batch| then multiset(j.batch) else multiset(j.batch[..j.synced])
  }

  /** The fields after `flights` are histories: the batches done with, and where metrics came from and went. */
  datatype State = State(net: Net, flights: seq<Flight>, ended: seq<Journey>,
                         accepted: multiset<string>, taken: multiset<string>, released: multiset<string>,
                         requeued: multiset<string>, evicted: multiset<string>, refused: multiset<string>)

  /**
   * `Written` and `Flushed` are the successful writes and flushes of a batch,
   * `Settle` is its end; `Change` is anything other threads do.
   */
  datatype Event =
    | Send(server: nat, metric: string, force: bool)
    | Take(conn: nat, self: nat, source: nat)
    | Written(conn: nat)
    | Flushed(conn: nat)
    | Settle(conn: nat, open: bool)
    | GiveBack(conn: nat)
    | Change(server: nat, failures: seq<nat>, threshold: nat, running: bool)

  predicate Enabled(st: State, e: Event) {
    match e
    case Send(s, _, _) => s < |st.net.servers|
    case Take(c, self, source) =>
      c < |st.flights| && st.flights[c].Idle? && self < |st.net.servers| && source < |st.net.servers|
    case Written(c) => c < |st.flights| && st.flights[c].Writing? && st.flights[c].written < |st.flights[c].batch|
    case Flushed(c) => c < |st.flights| && st.flights[c].Writing?
    case Settle(c, _) => c < |st.flights| && st.flights[c].Writing?
    case GiveBack(c) => c < |st.flights| && st.flights[c].Returning?
    case Change(s, _, _, _) => s < |st.net.servers|
  }

  function Next(st: State, e: Event): State
    requires st.net.Valid() && FlightsOk(st) && Enabled(st, e)
  {
    match e
    case Send(s, d, force) => AfterSend(st, s, d, force)
    case Take(c, self, source) => AfterTake(st, c, self, source)
    case Written(c) => AfterWrite(st, c, st.flights[c].written + 1, st.flights[c].synced)
    case Flushed(c) => AfterWrite(st, c, st.flights[c].written, st.flights[c].written)
    case Settle(c, open) => AfterSettle(st, c, open)
    case GiveBack(c) => AfterGiveBack(st, c)
    case Change(s, failures, threshold, running) =>
      var me := st.net.servers[s].(failures := failures, threshold := threshold, running := running);
      st.(net := st.net.(servers := st.net.servers[s := me]))
  }

  function AfterSend(st: State, s: nat, d: string, force: bool): State
    requires st.net.Valid() && s < |st.net.servers|
  {
    var r := Sent(st.net, s, d, force);
    if r.taken then st.(net := r.net, accepted := st.accepted + multiset{d},
                        evicted := st.evicted + multiset(r.evicted))
    else st.(net := r.net)
  }

  function AfterTake(st: State, c: nat, self: nat, source: nat): State
    requires st.net.Valid() && c < |st.flights| && self < |st.net.servers| && source < |st.net.servers|
  {
    var q := st.net.servers[source].line;
    var r := Apply(st.net.lines[q].items, st.net.lines[q].cap, DequeueVector(st.net.servers[self].bsize));
    st.(net := st.net.(lines := st.net.lines[q := Line(st.net.lines[q].cap, r.0)]),
        flights := st.flights[c := if r.1 == [] then Idle else Writing(source, q, r.1, 0, 0)],
        taken := st.taken + multiset(r.1))
  }

  /** A batch with new counts of what was written and what was flushed. */
  function AfterWrite(st: State, c: nat, written: nat, synced: nat): State
    requires c < |st.flights| && st.flights[c].Writing?
  {
    var f := st.flights[c];
    st.(flights := st.flights[c := Writing(f.source, f.line, f.batch, written, synced)])
  }

  /** An open connection frees the whole batch, a closed one what was flushed. */
  function AfterSettle(st: State, c: nat, open: bool): State
    requires FlightsOk(st) && c < |st.flights| && st.flights[c].Writing?
  {
    var f := st.flights[c];
    if open then
      st.(flights := st.flights[c := Idle], ended := st.ended + [Journey(f.batch, f.synced, true, [], [])],
          released := st.released + multiset(f.batch))
    else
      st.(flights := st.flights[c := Returning(f.source, f.line, f.batch, f.synced, [], [], f.batch[f.synced..])],
          released := st.released + multiset(f.batch[..f.synced]))
  }

  /** The next metric goes back to the front of its queue or, if that is full, is counted as dropped. */
  function AfterGiveBack(st: State, c: nat): State
    requires st.net.Valid() && FlightsOk(st) && c < |st.flights| && st.flights[c].Returning?
  {
    var f := st.flights[c];
    if f.rest == [] then
      st.(flights := st.flights[c := Idle], ended := st.ended + [Journey(f.batch, f.synced, false, f.back, f.lost)])
    else
      var q, x := st.net.lines[f.line], f.rest[0];
      if q.Free() == 0 then
        var me := st.net.servers[f.source];
        st.(flights := st.flights[c := f.(lost := f.lost + [x], rest := f.rest[1..])],
            net := st.net.(servers := st.net.servers[f.source := me.(dropped := me.dropped + 1)]),
            refused := st.refused + multiset{x})
      else
        st.(flights := st.flights[c := f.(back := f.back + [x], rest := f.rest[1..])],
            net := st.net.(lines := st.net.lines[f.line := Line(q.cap, PutBack(q.items, q.cap, x))]),
            requeued := st.requeued + multiset{x})
  }

  /** Everything after the last successful flush is still carried, put back or dropped. */
  predicate FlightOk(f: Flight) {
    match f
    case Idle => true
    case Writing(_, _, batch, written, synced) => synced <= written <= |batch|
    case Returning(_, _, batch, synced, back, lost, rest) =>
      synced <= |batch| && multiset(batch[synced..]) == multiset(back) + multiset(lost) + multiset(rest)
  }

  predicate JourneyOk(j: Journey) {
    j.synced <= |j.batch| && (!j.open ==> multiset(j.batch[j.synced..]) == multiset(j.back) + multiset(j.lost))
  }

  predicate FlightsOk(st: State) {
    && (forall c :: 0 <= c < |st.flights| ==> FlightOk(st.flights[c]))
    && (forall c :: 0 <= c < |st.flights| && !st.flights[c].Idle? ==>
          st.flights[c].source < |st.net.servers| && st.flights[c].line < |st.net.lines|)
    && (forall j :: 0 <= j < |st.ended| ==> JourneyOk(st.ended[j]))
  }

  function Gather<T>(xs: seq<T>, f: T -> multiset<string>): multiset<string> {
    if xs == [] then multiset{} else f(xs[0]) + Gather(xs[1..], f)
  }

  lemma {:induction false} GatherUpdate<T>(xs: seq<T>, f: T -> multiset<string>, i: nat, x: T, m: string)
    requires i < |xs|
    ensures Gather(xs[i := x], f)[m] + f(xs[i])[m] == Gather(xs, f)[m] + f(x)[m]
    decreases |xs|
  {
    if i == 0 {
      assert xs[i := x][1..] == xs[1..];
    } else {
      assert xs[i := x][1..] == xs[1..][i - 1 := x];
      GatherUpdate(xs[1..], f, i - 1, x, m);
    }
  }

  lemma {:induction false} GatherSnoc<T>(xs: seq<T>, f: T -> multiset<string>, x: T, m: string)
    ensures Gather(xs + [x], f)[m] == Gather(xs, f)[m] + f(x)[m]
    decreases |xs|
  {
    if xs == [] {
      assert (xs + [x])[1..] == [];
    } else {
      assert (xs + [x])[1..] == xs[1..] + [x];
      GatherSnoc(xs[1..], f, x, m);
    }
  }

  function Held(l: Line): multiset<string> {
    multiset(l.items)
  }

  function InQueues(lines: seq<Line>): multiset<string> {
    Gather(lines, Held)
  }

  function InFlight(st: State): multiset<string> {
    Gather(st.flights, Carried)
  }

  function Dropped(servers: seq<Server>): nat {
    if servers == [] then 0 else servers[0].dropped + Dropped(servers[1..])
  }

  lemma {:induction false} DroppedUpdate(servers: seq<Server>, s: nat, x: Server)
    requires s < |servers|
    ensures Dropped(servers[s := x]) + servers[s].dropped == Dropped(servers) + x.dropped
    decreases |servers|
  {
    if s == 0 {
      assert servers[s := x][1..] == servers[1..];
    } else {
      assert servers[s := x][1..] == servers[1..][s - 1 := x];
      DroppedUpdate(servers[1..], s - 1, x);
    }
  }

  /** The queues' books and the senders' books, for one metric. */
  ghost predicate BalancedFor(st: State, m: string) {
    && st.accepted[m] + st.requeued[m] == InQueues(st.net.lines)[m] + st.taken[m] + st.evicted[m]
    && st.taken[m] == InFlight(st)[m] + st.released[m] + st.requeued[m] + st.refused[m]
    && TalliedFor(st, m)
  }

  /** What was put back, dropped and freed is what the single batches account for. */
  ghost predicate TalliedFor(st: State, m: string) {
    && st.requeued[m] == Gather(st.flights, BackOf)[m] + Gather(st.ended, BackIn)[m]
    && st.refused[m] == Gather(st.flights, LostOf)[m] + Gather(st.ended, LostIn)[m]
    && st.released[m] == Gather(st.flights, FreedOf)[m] + Gather(st.ended, FreedIn)[m]
  }

  lemma {:induction false} FlightUpdate(fs: seq<Flight>, c: nat, f: Flight, m: string)
    requires c < |fs|
    ensures Gather(fs[c := f], Carried)[m] + Carried(fs[c])[m] == Gather(fs, Carried)[m] + Carried(f)[m]
    ensures Gather(fs[c := f], BackOf)[m] + BackOf(fs[c])[m] == Gather(fs, BackOf)[m] + BackOf(f)[m]
    ensures Gather(fs[c := f], LostOf)[m] + LostOf(fs[c])[m] == Gather(fs, LostOf)[m] + LostOf(f)[m]
    ensures Gather(fs[c := f], FreedOf)[m] + FreedOf(fs[c])[m] == Gather(fs, FreedOf)[m] + FreedOf(f)[m]
  {
    GatherUpdate(fs, Carried, c, f, m);
    GatherUpdate(fs, BackOf, c, f, m);
    GatherUpdate(fs, LostOf, c, f, m);
    GatherUpdate(fs, FreedOf, c, f, m);
  }

  lemma {:induction false} JourneyAdded(js: seq<Journey>, j: Journey, m: string)
    ensures Gather(js + [j], BackIn)[m] == Gather(js, BackIn)[m] + multiset(j.back)[m]
    ensures Gather(js + [j], LostIn)[m] == Gather(js, LostIn)[m] + multiset(j.lost)[m]
    ensures Gather(js + [j], FreedIn)[m] == Gather(js, FreedIn)[m] + FreedIn(j)[m]
  {
    GatherSnoc(js, BackIn, j, m);
    GatherSnoc(js, LostIn, j, m);
    GatherSnoc(js, FreedIn, j, m);
  }

  /** Books that balance; `before` is what the servers had counted as dropped at the start. */
  ghost predicate Valid(st: State, before: nat) {
    && st.net.Valid() && FlightsOk(st)
    && (forall m :: BalancedFor(st, m))
    && before + |st.evicted| + |st.refused| == Dropped(st.net.servers)
  }

  /** Sending a metric keeps the books. */
  lemma {:induction false} SendBalanced(st: State, s: nat, d: string, force: bool, m: string)
    requires st.net.Valid() && BalancedFor(st, m) && s < |st.net.servers|
    ensures BalancedFor(AfterSend(st, s, d, force), m)
  {
    hide Sent, Failed, Backed, Gather, InQueues;
    FatesOfAMetric(st.net, s, d, force);
    var me, r := st.net.servers[s], Sent(st.net, s, d, force);
    if Stalled(st.net, s, r) {
    } else if DroppedOldest(st.net, s, d, r) {
      Replaces(st.net.lines, me.line, d, m);
    } else if Queued(st.net, s, d, r) {
      Adds(st.net, r.net, me.line, d, m);
    } else {
      var t: nat :| MovedTo(st.net, s, d, r, t);
      Adds(st.net, r.net, st.net.servers[t].line, d, m);
    }
  }

  lemma {:induction false} Adds(net: Net, next: Net, q: nat, d: string, m: string)
    requires q < |net.lines| && Appends(net, next, q, d)
    ensures InQueues(next.lines)[m] == InQueues(net.lines)[m] + multiset{d}[m]
  {
    hide Gather;
    GatherUpdate(net.lines, Held, q, next.lines[q], m);
  }

  lemma {:induction false} Replaces(lines: seq<Line>, q: nat, d: string, m: string)
    requires q < |lines| && lines[q].items != []
    ensures var items := lines[q].items;
            InQueues(lines[q := Line(|items|, items[1..] + [d])])[m] + multiset([items[0]])[m] ==
              InQueues(lines)[m] + multiset{d}[m]
  {
    hide Gather;
    var items := lines[q].items;
    assert items == [items[0]] + items[1..];
    GatherUpdate(lines, Held, q, Line(|items|, items[1..] + [d]), m);
  }

  lemma {:induction false} SendCounted(st: State, s: nat, d: string, force: bool)
    requires st.net.Valid() && s < |st.net.servers|
    ensures var t := AfterSend(st, s, d, force);
            Dropped(t.net.servers) - |t.evicted| == Dropped(st.net.servers) - |st.evicted| && t.refused == st.refused
  {
    hide Sent, Failed, Backed, Dropped;
    FatesOfAMetric(st.net, s, d, force);
    var r := Sent(st.net, s, d, force);
    DroppedUpdate(st.net.servers, s, r.net.servers[s]);
  }

  lemma {:induction false} TakeBalanced(st: State, c: nat, self: nat, source: nat, m: string)
    requires st.net.Valid() && BalancedFor(st, m)
    requires c < |st.flights| && st.flights[c].Idle? && self < |st.net.servers| && source < |st.net.servers|
    ensures BalancedFor(AfterTake(st, c, self, source), m)
  {
    hide Gather, InQueues, Apply;
    var q := st.net.servers[source].line;
    var l := st.net.lines[q];
    var r := Apply(l.items, l.cap, DequeueVector(st.net.servers[self].bsize));
    VectorSplits(l.items, l.cap, st.net.servers[self].bsize);
    Moves(st.net.lines, q, l.items, r.1, r.0, m);
    FlightUpdate(st.flights, c, if r.1 == [] then Idle else Writing(source, q, r.1, 0, 0), m);
  }

  lemma {:induction false} VectorSplits(items: seq<string>, cap: nat, n: nat)
    requires cap >= 1 && |items| <= cap
    ensures var r := Apply(items, cap, DequeueVector(n)); items == r.1 + r.0
  {
  }

  /** Taking `front` off a queue's items, or putting it there, changes its contents by just that. */
  lemma {:induction false} Moves(lines: seq<Line>, q: nat, whole: seq<string>, front: seq<string>, back: seq<string>,
                                 m: string)
    requires q < |lines| && whole == front + back
    ensures lines[q].items == whole ==>
              InQueues(lines[q := lines[q].(items := back)])[m] + multiset(front)[m] == InQueues(lines)[m]
    ensures lines[q].items == back ==>
              InQueues(lines[q := lines[q].(items := whole)])[m] == InQueues(lines)[m] + multiset(front)[m]
  {
    hide Gather;
    GatherUpdate(lines, Held, q, lines[q].(items := back), m);
    GatherUpdate(lines, Held, q, lines[q].(items := whole), m);
  }

  lemma {:induction false} WriteBalanced(st: State, c: nat, written: nat, synced: nat, m: string)
    requires BalancedFor(st, m) && c < |st.flights| && st.flights[c].Writing?
    ensures BalancedFor(AfterWrite(st, c, written, synced), m)
  {
    hide Gather;
    FlightUpdate(st.flights, c, AfterWrite(st, c, written, synced).flights[c], m);
  }

  lemma {:induction false} SettleBalanced(st: State, c: nat, open: bool, m: string)
    requires FlightsOk(st) && BalancedFor(st, m) && c < |st.flights| && st.flights[c].Writing?
    ensures BalancedFor(AfterSettle(st, c, open), m)
  {
    hide Gather;
    var f := st.flights[c];
    assert f.batch == f.batch[..f.synced] + f.batch[f.synced..];
    FlightUpdate(st.flights, c, AfterSettle(st, c, open).flights[c], m);
    if open {
      JourneyAdded(st.ended, Journey(f.batch, f.synced, true, [], []), m);
    }
  }

  lemma {:induction false} GiveBackBalanced(st: State, c: nat, m: string)
    requires st.net.Valid() && FlightsOk(st) && BalancedFor(st, m) && c < |st.flights| && st.flights[c].Returning?
    ensures BalancedFor(AfterGiveBack(st, c), m)
  {
    hide Gather, InQueues, Net.Valid, FlightOk, JourneyOk, BalancedFor;
    var f := st.flights[c];
    assert FlightOk(f);
    if f.rest == [] {
      ReturnEnds(st, c, f, m);
    } else {
      var x, t := f.rest[0], AfterGiveBack(st, c);
      assert f.rest == [x] + f.rest[1..];
      LinesInShape(st.net, f.line);
      if st.net.lines[f.line].Free() == 0 {
        OneIsLost(st, t, c, f, x, m);
      } else {
        OneGoesBack(st, t, c, f, x, m);
      }
    }
  }

  lemma {:induction false} ReturnEnds(st: State, c: nat, f: Flight, m: string)
    requires BalancedFor(st, m) && c < |st.flights| && f == st.flights[c] && f.Returning? && f.rest == [] && FlightOk(f)
    ensures BalancedFor(st.(flights := st.flights[c := Idle],
                            ended := st.ended + [Journey(f.batch, f.synced, false, f.back, f.lost)]), m)
  {
    hide Gather, InQueues;
    FlightUpdate(st.flights, c, Idle, m);
    JourneyAdded(st.ended, Journey(f.batch, f.synced, false, f.back, f.lost), m);
  }

  lemma {:induction false} OneIsLost(st: State, t: State, c: nat, f: Flight, x: string, m: string)
    requires BalancedFor(st, m) && c < |st.flights| && f == st.flights[c] && f.Returning? && f.rest != [] &&
             f.rest == [x] + f.rest[1..]
    requires t.net.lines == st.net.lines
    requires t == st.(net := t.net, refused := st.refused + multiset{x},
                      flights := st.flights[c := f.(lost := f.lost + [x], rest := f.rest[1..])])
    ensures BalancedFor(t, m)
  {
    hide Gather, InQueues;
    FlightUpdate(st.flights, c, t.flights[c], m);
  }

  lemma {:induction false} OneGoesBack(st: State, t: State, c: nat, f: Flight, x: string, m: string)
    requires BalancedFor(st, m) && c < |st.flights| && f == st.flights[c] && f.Returning? && f.rest != [] &&
             f.rest == [x] + f.rest[1..]
    requires f.line < |st.net.lines|
    requires var l := st.net.lines[f.line];
             t.net.lines == st.net.lines[f.line := l.(items := [x] + l.items)]
    requires t == st.(net := t.net, requeued := st.requeued + multiset{x},
                      flights := st.flights[c := f.(back := f.back + [x], rest := f.rest[1..])])
    ensures BalancedFor(t, m)
  {
    hide Gather, InQueues;
    FlightUpdate(st.flights, c, t.flights[c], m);
    var items := st.net.lines[f.line].items;
    Moves(st.net.lines, f.line, [x] + items, [x], items, m);
  }

  lemma {:induction false} GiveBackCounted(st: State, c: nat)
    requires st.net.Valid() && FlightsOk(st) && c < |st.flights| && st.flights[c].Returning?
    ensures var t := AfterGiveBack(st, c);
            Dropped(t.net.servers) - |t.refused| == Dropped(st.net.servers) - |st.refused| && t.evicted == st.evicted
  {
    hide Dropped;
    var f := st.flights[c];
    DroppedUpdate(st.net.servers, f.source, AfterGiveBack(st, c).net.servers[f.source]);
  }

  lemma {:induction false} NextKeepsValid(st: State, before: nat, e: Event)
    requires Valid(st, before) && Enabled(st, e)
    ensures Valid(Next(st, e), before)
  {
    hide BalancedFor, Dropped, AfterSend, AfterTake, AfterSettle, AfterGiveBack;
    var t := Next(st, e);
    NextInShape(st, e);
    forall m ensures BalancedFor(t, m) {
      NextBalanced(st, e, m);
    }
    NextCounted(st, e);
  }

  lemma {:induction false} NextBalanced(st: State, e: Event, m: string)
    requires st.net.Valid() && FlightsOk(st) && BalancedFor(st, m) && Enabled(st, e)
    ensures BalancedFor(Next(st, e), m)
  {
    hide Net.Valid, AfterSend, AfterTake, AfterSettle, AfterGiveBack, Gather;
    match e
    case Send(s, d, force) => SendBalanced(st, s, d, force, m);
    case Take(c, self, source) => TakeBalanced(st, c, self, source, m);
    case Written(c) => WriteBalanced(st, c, st.flights[c].written + 1, st.flights[c].synced, m);
    case Flushed(c) => WriteBalanced(st, c, st.flights[c].written, st.flights[c].written, m);
    case Settle(c, open) => SettleBalanced(st, c, open, m);
    case GiveBack(c) => GiveBackBalanced(st, c, m);
    case Change(_, _, _, _) =>
  }

  lemma {:induction false} NextCounted(st: State, e: Event)
    requires st.net.Valid() && FlightsOk(st) && Enabled(st, e)
    ensures var t := Next(st, e);
            Dropped(t.net.servers) - |t.evicted| - |t.refused| == Dropped(st.net.servers) - |st.evicted| - |st.refused|
  {
    hide Net.Valid, AfterSend, AfterGiveBack, Dropped;
    match e
    case Send(s, d, force) => SendCounted(st, s, d, force);
    case Take(_, _, _) =>
    case Written(_) =>
    case Flushed(_) =>
    case Settle(_, _) =>
    case GiveBack(c) => GiveBackCounted(st, c);
    case Change(s, _, _, _) => DroppedUpdate(st.net.servers, s, Next(st, e).net.servers[s]);
  }

  lemma {:induction false} NextInShape(st: State, e: Event)
    requires st.net.Valid() && FlightsOk(st) && Enabled(st, e)
    ensures Next(st, e).net.Valid() && FlightsOk(Next(st, e))
  {
    hide Net.Valid, Sent, AfterTake, AfterSettle, AfterGiveBack;
    match e
    case Send(s, d, force) => SentKeepsValid(st.net, s, d, force);
    case Take(c, self, source) => TakeInShape(st, c, self, source);
    case Written(_) =>
    case Flushed(_) =>
    case Settle(c, open) => SettleInShape(st, c, open);
    case GiveBack(c) => GiveBackInShape(st, c);
    case Change(s, failures, threshold, running) =>
      ChangeInShape(st.net, s, failures, threshold, running);
  }

  lemma {:induction false} ChangeInShape(net: Net, s: nat, failures: seq<nat>, threshold: nat, running: bool)
    requires net.Valid() && s < |net.servers|
    ensures net.(servers := net.servers[s := net.servers[s].(failures := failures, threshold := threshold,
                                                             running := running)]).Valid()
  {
    var x := net.servers[s].(failures := failures, threshold := threshold, running := running);
    KeepsValid(net, net.(servers := net.servers[s := x]), s);
  }

  lemma {:induction false} TakeInShape(st: State, c: nat, self: nat, source: nat)
    requires st.net.Valid() && FlightsOk(st)
    requires c < |st.flights| && self < |st.net.servers| && source < |st.net.servers|
    ensures AfterTake(st, c, self, source).net.Valid() && FlightsOk(AfterTake(st, c, self, source))
  {
    hide Apply;
    var q := st.net.servers[source].line;
    VectorSplits(st.net.lines[q].items, st.net.lines[q].cap, st.net.servers[self].bsize);
    KeepsValid(st.net, AfterTake(st, c, self, source).net, self);
  }

  lemma {:induction false} SettleInShape(st: State, c: nat, open: bool)
    requires FlightsOk(st) && c < |st.flights| && st.flights[c].Writing?
    ensures FlightsOk(AfterSettle(st, c, open)) && AfterSettle(st, c, open).net == st.net
  {
    assert FlightOk(st.flights[c]);
  }

  lemma {:induction false} GiveBackInShape(st: State, c: nat)
    requires st.net.Valid() && FlightsOk(st) && c < |st.flights| && st.flights[c].Returning?
    ensures AfterGiveBack(st, c).net.Valid() && FlightsOk(AfterGiveBack(st, c))
  {
    hide FlightOk, JourneyOk;
    var f, t := st.flights[c], AfterGiveBack(st, c);
    assert FlightOk(f);
    RestMoves(f);
    assert f.rest == [] ==> JourneyOk(Journey(f.batch, f.synced, false, f.back, f.lost));
    KeepsValid(st.net, t.net, f.source);
  }

  lemma {:induction false} RestMoves(f: Flight)
    requires f.Returning? && FlightOk(f)
    ensures FlightOk(Idle) && (f.rest == [] ==> JourneyOk(Journey(f.batch, f.synced, false, f.back, f.lost)))
    ensures f.rest != [] ==>
              && FlightOk(f.(lost := f.lost + [f.rest[0]], rest := f.rest[1..]))
              && FlightOk(f.(back := f.back + [f.rest[0]], rest := f.rest[1..]))
  {
    if f.rest != [] {
      assert f.rest == [f.rest[0]] + f.rest[1..];
    }
  }

  /** The start: queues may hold metrics, counted as accepted; no connection carries any. */
  ghost predicate Initial(st: State) {
    && st.net.Valid()
    && (forall c :: 0 <= c < |st.flights| ==> st.flights[c] == Idle)
    && st.accepted == InQueues(st.net.lines)
    && st.ended == [] && st.taken == st.released == st.requeued == st.evicted == st.refused == multiset{}
  }

  lemma {:induction false} NothingInFlight(fs: seq<Flight>)
    requires forall c :: 0 <= c < |fs| ==> fs[c] == Idle
    ensures Gather(fs, Carried) == Gather(fs, BackOf) == Gather(fs, LostOf) == Gather(fs, FreedOf) == multiset{}
    decreases |fs|
  {
    if fs != [] {
      NothingInFlight(fs[1..]);
    }
  }

  lemma {:induction false} InitialIsValid(st: State)
    requires Initial(st)
    ensures Valid(st, Dropped(st.net.servers))
  {
    NothingInFlight(st.flights);
  }

  /** Can the events follow one another? */
  ghost predicate IsRun(st: State, before: nat, es: seq<Event>)
    requires Valid(st, before)
    decreases |es|
  {
    es != [] ==> Enabled(st, es[0]) && (NextKeepsValid(st, before, es[0]); IsRun(Next(st, es[0]), before, es[1..]))
  }

  ghost function End(st: State, before: nat, es: seq<Event>): (t: State)
    requires Valid(st, before) && IsRun(st, before, es)
    ensures Valid(t, before)
    decreases |es|
  {
    if es == [] then st
    else
      NextKeepsValid(st, before, es[0]);
      End(Next(st, es[0]), before, es[1..])
  }

  ghost predicate Possible(st: State, es: seq<Event>)
    requires Initial(st)
  {
    InitialIsValid(st);
    IsRun(st, Dropped(st.net.servers), es)
  }

  ghost function Final(st: State, es: seq<Event>): (t: State)
    requires Initial(st) && Possible(st, es)
    ensures Valid(t, Dropped(st.net.servers))
  {
    InitialIsValid(st);
    End(st, Dropped(st.net.servers), es)
  }

  /**
   * Main result: in every run of senders and receivers, every accepted metric
   * is in a queue, in a batch, released by a sender or dropped and counted;
   * whatever a sender took out it still holds, freed, put back or dropped, once.
   */
  lemma {:induction false} NothingIsLost(st: State, es: seq<Event>)
    requires Initial(st) && Possible(st, es)
    ensures var t := Final(st, es);
            && t.accepted == InQueues(t.net.lines) + InFlight(t) + t.released + (t.evicted + t.refused)
            && t.taken == InFlight(t) + t.released + t.requeued + t.refused
            && |t.evicted + t.refused| == Dropped(t.net.servers) - Dropped(st.net.servers)
  {
    hide Gather, InQueues, InFlight, Possible, Final, Dropped;
    var t := Final(st, es);
    var all := InQueues(t.net.lines) + InFlight(t) + t.released + (t.evicted + t.refused);
    forall m ensures t.accepted[m] == all[m] && t.taken[m] == (InFlight(t) + t.released + t.requeued + t.refused)[m] {
      assert BalancedFor(t, m);
    }
  }

  /**
   * Main result: in every run, whatever happens in between, all of a batch
   * behind its last successful flush is still to be put back, was put back or
   * was dropped once the connection is closed; and what was put back, dropped
   * and freed altogether is what the single batches account for.
   */
  lemma {:induction false} EveryBatchIsAccountedFor(st: State, es: seq<Event>)
    requires Initial(st) && Possible(st, es)
    ensures var t := Final(st, es);
            && (forall c :: 0 <= c < |t.flights| ==> FlightOk(t.flights[c]))
            && (forall j :: 0 <= j < |t.ended| ==> JourneyOk(t.ended[j]))
            && t.requeued == Gather(t.flights, BackOf) + Gather(t.ended, BackIn)
            && t.refused == Gather(t.flights, LostOf) + Gather(t.ended, LostIn)
            && t.released == Gather(t.flights, FreedOf) + Gather(t.ended, FreedIn)
  {
    hide Gather, InQueues, InFlight, Possible, Final, Dropped, FlightOk, JourneyOk;
    var t := Final(st, es);
    forall m
      ensures t.requeued[m] == (Gather(t.flights, BackOf) + Gather(t.ended, BackIn))[m]
      ensures t.refused[m] == (Gather(t.flights, LostOf) + Gather(t.ended, LostIn))[m]
      ensures t.released[m] == (Gather(t.flights, FreedOf) + Gather(t.ended, FreedIn))[m]
    {
      assert BalancedFor(t, m);
    }
  }

  // ---------------------------------------------------------------------
  // The loops of the source
  // ---------------------------------------------------------------------

  function Reversed(items: seq<string>): (r: seq<string>)
    ensures |r| == |items|
  {
    if items == [] then [] else [items[|items| - 1]] + Reversed(items[..|items| - 1])
  }

  lemma {:induction false} ReversedStep(rest: seq<string>, i: nat, items: seq<string>)
    requires i < |rest|
    ensures Reversed(rest[..i + 1]) + items == [rest[i]] + (Reversed(rest[..i]) + items)
  {
    assert rest[..i + 1][..i] == rest[..i];
  }

  class Relay {
    var lines: seq<Line>
    var servers: seq<Server>

    ghost function Abs(): Net
      reads this
    {
      Net(lines, servers)
    }

    ghost predicate Valid()
      reads this
    {
      Abs().Valid()
    }

    constructor (lines: seq<Line>, servers: seq<Server>)
      requires Net(lines, servers).Valid()
      ensures Valid() && Abs() == Net(lines, servers)
    {
      this.lines, this.servers := lines, servers;
    }

    /** Zero if some connection is fine (or there is none), else the worst count. */
    method ServerFailed(s: nat) returns (failure: nat)
      requires s < |servers|
      ensures failure > 0 <==> Failed(servers[s])
      ensures failure > 0 ==> failure in servers[s].failures && forall f :: f in servers[s].failures ==> f <= failure
    {
      var fs := servers[s].failures;
      failure := 0;
      var i := 0;
      while i < |fs|
        invariant i <= |fs| && 0 !in fs[..i]
        invariant if i == 0 then failure == 0
                  else failure > 0 && failure in fs[..i] && forall f :: f in fs[..i] ==> f <= failure
      {
        assert fs[..i + 1] == fs[..i] + [fs[i]];
        if fs[i] == 0 {
          return 0;
        } else if failure == 0 || failure < fs[i] {
          failure := fs[i];
        }
        i := i + 1;
      }
      assert fs[..i] == fs;
    }

    method ChooseLine(s: nat) returns (line: nat)
      requires Valid() && s < |servers|
      ensures line == Choose(Abs(), s, |servers[s].secondaries|).0
    {
      var me := servers[s];
      line := me.line;
      var maxfree := lines[line].Free() + 4 * me.bsize;
      var failure := ServerFailed(s);
      var i := 0;
      while i < |me.secondaries|
        invariant i <= |me.secondaries| && (line, maxfree) == Choose(Abs(), s, i)
      {
        var t := me.secondaries[i];
        if t != s && failure == 0 && servers[t].running {
          var free := lines[servers[t].line].Free();
          if free > maxfree {
            line, maxfree := servers[t].line, free;
          }
        }
        i := i + 1;
      }
    }

    method HasBackup(s: nat) returns (backed: bool)
      requires Valid() && s < |servers|
      ensures backed == Backed(Abs(), s)
    {
      var me := servers[s];
      var i := 0;
      while i < |me.secondaries|
        invariant i <= |me.secondaries| && forall j :: 0 <= j < i ==> Failed(servers[me.secondaries[j]])
      {
        var failure := ServerFailed(me.secondaries[i]);
        if failure == 0 {
          return true;
        }
        i := i + 1;
      }
      return false;
    }

    method Push(line: nat, d: string)
      requires line < |lines| && lines[line].Valid()
      modifies this`lines
      ensures Abs() == Pushed(old(Abs()), line, d)
    {
      var q := lines[line];
      lines := lines[line := Line(q.cap, Enqueued(q.items, q.cap, d))];
    }

    method Send(s: nat, d: string, force: bool) returns (taken: bool)
      requires Valid() && s < |servers|
      modifies this
      ensures Valid()
      ensures Abs() == Sent(old(Abs()), s, d, force).net && taken == Sent(old(Abs()), s, d, force).taken
    {
      hide Net.Valid, Choose, Pushed;
      SentKeepsValid(Abs(), s, d, force);
      ServerInShape(Abs(), s);
      var me := servers[s];
      var free := lines[me.line].Free();
      var failure := ServerFailed(s);
      if !force && |me.secondaries| > 0 && (failure > 0 || free < me.threshold) {
        var line := ChooseLine(s);
        assert servers == servers[s := me];
        if line != me.line {
          LinesInShape(Abs(), line);
          if failure == 0 {
            servers := servers[s := me.(requeue := me.requeue + 1)];
          }
          Push(line, d);
          return true;
        }
      }
      if free == 0 {
        if !force && |me.secondaries| > 0 {
          var backed := HasBackup(s);
          if backed {
            failure := 0;
          }
        }
        if failure > 0 || force || me.stallseq == me.maxstalls {
          servers := servers[s := me.(dropped := me.dropped + 1)];
        } else {
          servers := servers[s := me.(stallseq := me.stallseq + 1, stalls := me.stalls + 1)];
          return false;
        }
      } else {
        servers := servers[s := me.(stallseq := 0)];
      }
      Push(me.line, d);
      return true;
    }

    /** Puts a batch's rest back, one by one; what no longer fits is counted as dropped. */
    method Requeue(line: nat, source: nat, rest: seq<string>)
      requires Valid() && line < |lines| && source < |servers|
      modifies this
      ensures Valid()
      ensures var q := old(lines[line]);
              var k := if |rest| < q.Free() then |rest| else q.Free();
              && lines == old(lines)[line := Line(q.cap, Reversed(rest[..k]) + q.items)]
              && servers == old(servers)[source :=
                   old(servers[source]).(dropped := old(servers[source].dropped) + |rest| - k)]
    {
      var q, me := lines[line], servers[source];
      ghost var net := Abs();
      var i := 0;
      assert Reversed(rest[..0]) + q.items == q.items;
      while i < |rest|
        invariant i <= |rest|
        invariant var k := if i < q.Free() then i else q.Free();
                  && lines == net.lines[line := Line(q.cap, Reversed(rest[..k]) + q.items)]
                  && servers == net.servers[source := me.(dropped := me.dropped + i - k)]
      {
        var now := lines[line];
        if now.Free() > 0 {
          ReversedStep(rest, i, q.items);
          lines := lines[line := Line(now.cap, PutBack(now.items, now.cap, rest[i]))];
        } else {
          servers := servers[source := servers[source].(dropped := servers[source].dropped + 1)];
        }
        i := i + 1;
      }
      KeepsValid(net, Abs(), source);
    }

    /** A batch already taken from the queue: written, then released or put back. */
    method SendBatch(l: nat, source: nat, conn: Sender, taken: seq<string>) returns (open: bool)
      requires Valid() && conn.Valid() && conn.open && l < |lines| && source < |servers|
      requires |taken| <= lines[l].Free()
      modifies this, conn
      ensures Valid() && conn.Valid() && servers == old(servers) && open == conn.open
      ensures conn.synced <= |taken|
      ensures var q := old(lines)[l];
              lines == if open then old(lines)
                else old(lines)[l := Line(q.cap, Reversed(taken[conn.synced..]) + q.items)]
      ensures old(conn.log) <= conn.log <= old(conn.log) + taken
      ensures conn.Smooth() ==> conn.log == old(conn.log) + taken && conn.synced == |taken|
      ensures open && conn.log != old(conn.log) + taken ==> conn.badFlush || conn.errorEvent
    {
      ghost var was := servers;
      var flushed, total := conn.WriteBatch(taken);
      open := conn.open;
      assert total == |taken| ==> taken[..total] == taken;
      if open {
        conn.Recover();
      } else {
        var rest := taken[flushed..];
        assert rest[..|rest|] == rest;
        Requeue(l, source, rest);
        assert servers == was;
      }
    }

    /**
     * One round of a sender: a connection that is ready takes as many metrics as
     * there are, up to the batch size, and writes them out in order, all of them
     * unless some answer was a bad one. With the connection closed at the end,
     * everything after the last successful flush is back in the queue, in
     * reverse order.
     */
    method QueueSend(self: nat, source: nat, conn: Sender) returns (len: int, ghost batch: seq<string>)
      requires Valid() && conn.Valid() && self < |servers| && source < |servers|
      modifies this, conn
      ensures Valid() && conn.Valid() && servers == old(servers)
      ensures var l := old(servers[source]).line;
              var q := old(lines)[l];
              && batch <= q.items
              && (len >= 0 || batch != [] ==>
                    |batch| == if servers[self].bsize < |q.items| then servers[self].bsize else |q.items|)
              && (len >= 0 ==> conn.open && len == |batch| && lines == old(lines)[l := Line(q.cap, q.items[|batch|..])])
              && (len < 0 && batch == [] ==> lines == old(lines))
              && (len < 0 && batch != [] ==> !conn.open && conn.synced <= |batch|)
              && (len < 0 && batch != [] ==>
                    lines == old(lines)[l := Line(q.cap, Reversed(batch[conn.synced..]) + q.items[|batch|..])])
      ensures len < 0 && batch == [] ==> !conn.open || conn.errorEvent
      ensures old(conn.log) <= conn.log <= old(conn.log) + batch
      ensures batch != [] && conn.Smooth() ==> len >= 0 && conn.log == old(conn.log) + batch && conn.synced == |batch|
      ensures len >= 0 && conn.log != old(conn.log) + batch ==> conn.badFlush || conn.errorEvent
    {
      ServerInShape(Abs(), source);
      var l := servers[source].line;
      var q := lines[l];
      var ready := conn.Poll();
      if !ready {
        return -1, [];
      }
      var k := if servers[self].bsize < |q.items| then servers[self].bsize else |q.items|;
      var taken := q.items[..k];
      batch := taken;
      ghost var net := Abs();
      lines := lines[l := Line(q.cap, q.items[k..])];
      KeepsValid(net, Abs(), source);
      len := k;
      if taken != [] {
        var open := SendBatch(l, source, conn, taken);
        if !open {
          len := -1;
        }
      }
    }
  }

  lemma {:induction false} ServerInShape(net: Net, s: nat)
    requires net.Valid() && s < |net.servers|
    ensures net.servers[s].line < |net.lines| && net.lines[net.servers[s].line].Valid()
  {
  }

  lemma {:induction false} LinesInShape(net: Net, q: nat)
    requires net.Valid() && q < |net.lines|
    ensures net.lines[q].Valid()
  {
  }
}
