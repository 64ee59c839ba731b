/**
 * What the expiry thread and the putters may not do too early or too late, in
 * every run of a compute (`aggregator.c`): no bucket is closed or written before
 * its time is over, and recent samples are taken.
 */
module Expiry {
  import opened Common
  import opened Windows
  import opened Aggregation

  /** Expired buckets are past their expiry, and so is all that was written. */
  ghost predicate PastExpiry(s: State, inv: Invocation) {
    forall i :: 0 <= i < |inv.buckets| && inv.buckets[i].expired ==> inv.buckets[i].start + inv.expire < s.pass
  }

  /** The window reaches back far enough, and the splay is less than an interval. */
  ghost predicate ReachesBack(cfg: Config, s: State, inv: Invocation) {
    && cfg.expire <= inv.expire < cfg.expire + cfg.interval
    && inv.buckets != [] && inv.buckets[0].start + cfg.expire < s.clock + cfg.interval
  }

  ghost predicate Timely(cfg: Config, s: State) {
    && (forall n :: n in s.invs ==> PastExpiry(s, s.invs[n]) && ReachesBack(cfg, s, s.invs[n]))
    && (forall e :: e in s.emitted ==> e.key.start + cfg.expire < s.pass)
  }

  // ---------------------------------------------------------------------
  // Every step is timely
  // ---------------------------------------------------------------------

  /** The first bucket of a new window is the one `expire` seconds ago falls into. */
  lemma {:induction false} NewReachesBack(cfg: Config, now: nat)
    requires cfg.Valid() && now >= cfg.expire
    ensures var bs := NewBuckets(cfg, now);
            && bs != [] && Contains(cfg, bs[0], now - cfg.expire)
            && forall i :: 0 <= i < |bs| ==> !bs[i].expired && bs[i].cnt == 0
  {
    hide Times;
    TimesStep(0, cfg.interval);
    WindowLength(cfg);
    TimesDiv(now - cfg.expire, cfg.interval);
  }

  lemma {:induction false} CreatedTimely(cfg: Config, s: State, name: string, splay: nat)
    requires cfg.Valid() && s.clock >= cfg.expire && splay < cfg.interval && Timely(cfg, s)
    ensures Timely(cfg, Created(cfg, s, name, splay))
  {
    hide NewBuckets, Config.Valid;
    NewReachesBack(cfg, s.clock);
  }

  lemma {:induction false} PlacedTimely(cfg: Config, s: State, name: string, epoch: int, val: real)
    requires name in s.invs && IsWindow(cfg, s.invs[name].buckets) && Timely(cfg, s)
    ensures Timely(cfg, Placed(cfg, s, name, epoch, val))
  {
    hide IsWindow, BucketFor, AddSample;
    var inv := s.invs[name];
    NotEmpty(cfg, inv.buckets);
    BucketContainsEpoch(cfg, inv.buckets, epoch);
    var k := BucketFor(cfg, inv.buckets, epoch);
    if k.Some? {
      SampleKeepsPlace(inv.buckets[k.value], val);
    }
  }

  lemma {:induction false} ScannedTimely(cfg: Config, s: State)
    requires PhaseOk(s) && s.phase.Marking? && s.phase.scan.Some? && Timely(cfg, s)
    ensures Timely(cfg, Scanned(s))
  {
  }

  lemma {:induction false} TurnedTimely(cfg: Config, s: State, name: string)
    requires name in s.invs && |s.invs[name].buckets| > 1 && s.invs[name].buckets[0].expired
    requires Aligned(s.invs[name].buckets, cfg.interval) && s.pass <= s.clock && Timely(cfg, s)
    ensures Timely(cfg, Turned(cfg, s, name))
  {
    hide Times;
    var bs := s.invs[name].buckets;
    var cs := RotateOne(bs, cfg.interval);
    TimesStep(0, cfg.interval);
    assert bs[1].start == bs[0].start + Times(1, cfg.interval);
    assert forall i :: 0 <= i < |cs| - 1 ==> cs[i] == bs[i + 1];
  }

  lemma {:induction false} WindowIsLong(cfg: Config, bs: seq<Bucket>)
    requires IsWindow(cfg, bs)
    ensures |bs| > 1 && Aligned(bs, cfg.interval)
  {
    hide Times, Aligned;
    WindowLength(cfg);
  }

  lemma {:induction false} StepIsTimely(cfg: Config, s: State, e: Event)
    requires Valid(cfg, s) && Enabled(cfg, s, e) && Timely(cfg, s)
    ensures Timely(cfg, Stepped(cfg, s, e))
  {
    hide IsWindow, Placed, Created, Scanned, Turned, NoneDue, Booked, Aligned;
    match e
    case Put(name, epoch, val, splay) =>
      if name in s.invs {
        PlacedTimely(cfg, s, name, epoch, val);
      } else {
        CreatedTimely(cfg, s, name, splay);
        CreatedInStep(cfg, s, name, splay);
        CreatedHas(cfg, s, name, splay);
        PlacedTimely(cfg, Created(cfg, s, name, splay), name, epoch, val);
      }
    case ScanStep => ScannedTimely(cfg, s);
    case Rotate(n) =>
      WindowIsLong(cfg, s.invs[n].buckets);
      TurnedTimely(cfg, s, n);
    case Finish(n) =>
    case Tick(_) =>
    case BeginPass =>
    case BeginScan(_) =>
    case BeginSweep =>
    case EndPass =>
  }

  lemma {:induction false} RunIsTimely(cfg: Config, s: State, es: seq<Event>)
    requires Valid(cfg, s) && IsRun(cfg, s, es) && Timely(cfg, s)
    ensures Timely(cfg, End(cfg, s, es))
    decreases |es|
  {
    hide Valid, Enabled, Stepped, Timely;
    if es != [] {
      StepKeepsValid(cfg, s, es[0]);
      StepIsTimely(cfg, s, es[0]);
      RunIsTimely(cfg, Stepped(cfg, s, es[0]), es[1..]);
    }
  }

  // ---------------------------------------------------------------------
  // What that means
  // ---------------------------------------------------------------------

  /** Main result: in every run, a bucket is closed, and an aggregate written, only after its expiry. */
  lemma {:induction false} NothingIsClosedEarly(cfg: Config, now: nat, es: seq<Event>)
    requires cfg.Valid() && now >= cfg.expire && Possible(cfg, now, es)
    ensures var t := Final(cfg, now, es);
            && (forall n, i :: n in t.invs && 0 <= i < |t.invs[n].buckets| && t.invs[n].buckets[i].expired ==>
                  t.invs[n].buckets[i].start + t.invs[n].expire < t.pass)
            && (forall n :: n in t.invs ==> cfg.expire <= t.invs[n].expire < cfg.expire + cfg.interval)
            && (forall e :: e in t.emitted ==> e.key.start + cfg.expire < t.pass)
            && Timely(cfg, t)
  {
    hide Valid, IsRun, End;
    InitIsValid(cfg, now);
    RunIsTimely(cfg, Init(now), es);
  }

  /** The buckets a sample for this name meets. */
  function BucketsFor(cfg: Config, s: State, name: string): seq<Bucket>
    requires cfg.Valid() && s.clock >= cfg.expire
  {
    if name in s.invs then s.invs[name].buckets else NewBuckets(cfg, s.clock)
  }

  function ExpireFor(cfg: Config, s: State, name: string, splay: nat): nat {
    if name in s.invs then s.invs[name].expire else cfg.expire + splay
  }

  /** The interval of the window does not contain the epoch. */
  predicate OutsideWindow(cfg: Config, bs: seq<Bucket>, epoch: int)
    requires bs != []
  {
    epoch < bs[0].start || Last(bs) + cfg.interval <= epoch
  }

  ghost predicate InExpired(cfg: Config, bs: seq<Bucket>, epoch: int) {
    exists i :: 0 <= i < |bs| && Contains(cfg, bs[i], epoch) && bs[i].expired
  }

  lemma {:induction false} NoBucketExactlyWhen(cfg: Config, bs: seq<Bucket>, epoch: int)
    requires IsWindow(cfg, bs)
    ensures bs != [] && cfg.interval > 0
    ensures BucketFor(cfg, bs, epoch).None? <==> OutsideWindow(cfg, bs, epoch) || InExpired(cfg, bs, epoch)
  {
    hide Times, ExpiredInFront, Config.BucketCount;
    var n, t := |bs|, epoch - bs[0].start;
    TimesStep(n - 1, cfg.interval);
    assert Last(bs) + cfg.interval == bs[0].start + Times(n, cfg.interval);
    if !OutsideWindow(cfg, bs, epoch) {
      IndexInRange(t, n, cfg.interval);
      var k := t / cfg.interval;
      ContainsIsQuotient(cfg, bs, epoch, k);
      forall i | 0 <= i < n && Contains(cfg, bs[i], epoch) ensures i == k {
        ContainsIsQuotient(cfg, bs, epoch, i);
      }
    }
  }

  /** What a put does: the sample is dropped, or becomes the last accepted one. */
  lemma {:induction false} PutOutcome(cfg: Config, s: State, name: string, epoch: int, val: real, splay: nat)
    requires Valid(cfg, s) && splay < cfg.interval
    ensures cfg.Valid() && s.clock >= cfg.expire && IsWindow(cfg, BucketsFor(cfg, s, name)) && cfg.interval > 0
    ensures BucketsFor(cfg, s, name) != []
    ensures var t := Stepped(cfg, s, Put(name, epoch, val, splay));
            if BucketFor(cfg, BucketsFor(cfg, s, name), epoch).None?
            then t.dropped == s.dropped + 1 && t.accepted == s.accepted
            else t.dropped == s.dropped && |t.accepted| == |s.accepted| + 1 && s.accepted <= t.accepted &&
                 var x := t.accepted[|s.accepted|]; x.key.name == name && x.epoch == epoch && x.val == val
  {
    hide IsWindow, Booked, BucketFor, AddSample, NewBuckets, Progress, NoneDue, Config.Valid;
    NewIsWindow(cfg, s.clock);
    NotEmpty(cfg, BucketsFor(cfg, s, name));
    BucketContainsEpoch(cfg, BucketsFor(cfg, s, name), epoch);
  }

  /**
   * Main result: in every run, a sample is dropped exactly when its epoch lies
   * outside the window or in an expired bucket, and an expired bucket's time is
   * over.
   */
  lemma {:induction false} DroppedExactlyWhen(cfg: Config, now: nat, es: seq<Event>, name: string, epoch: int,
                                              val: real, splay: nat)
    requires cfg.Valid() && now >= cfg.expire && Possible(cfg, now, es) && splay < cfg.interval
    ensures var s := Final(cfg, now, es);
            && s.clock >= cfg.expire && BucketsFor(cfg, s, name) != []
            && var t, bs := Stepped(cfg, s, Put(name, epoch, val, splay)), BucketsFor(cfg, s, name);
               && (t.dropped > s.dropped <==> OutsideWindow(cfg, bs, epoch) || InExpired(cfg, bs, epoch))
               && (InExpired(cfg, bs, epoch) ==> epoch - cfg.interval + ExpireFor(cfg, s, name, splay) < s.pass)
  {
    hide IsRun, End, Stepped, IsWindow, BucketFor, Booked, NewBuckets, Config.Valid;
    var s := Final(cfg, now, es);
    NothingIsClosedEarly(cfg, now, es);
    PutOutcome(cfg, s, name, epoch, val, splay);
    var bs := BucketsFor(cfg, s, name);
    NoBucketExactlyWhen(cfg, bs, epoch);
    NewReachesBack(cfg, s.clock);
    if InExpired(cfg, bs, epoch) {
      var i :| 0 <= i < |bs| && Contains(cfg, bs[i], epoch) && bs[i].expired;
      assert name in s.invs;
    }
  }

  /**
   * Main result: between two passes, a sample is taken whenever it is at most
   * `expire - interval` seconds old and not newer than the last pass.
   */
  lemma {:induction false} RecentSamplesAreTaken(cfg: Config, now: nat, es: seq<Event>, name: string, epoch: int,
                                                 val: real, splay: nat)
    requires cfg.Valid() && now >= cfg.expire && Possible(cfg, now, es) && splay < cfg.interval
    requires var s := Final(cfg, now, es);
             s.phase.Idle? && s.clock + cfg.interval <= epoch + cfg.expire && epoch <= s.pass
    ensures var s := Final(cfg, now, es);
            var t := Stepped(cfg, s, Put(name, epoch, val, splay));
            && |t.accepted| == |s.accepted| + 1
            && var x := t.accepted[|s.accepted|]; x.key.name == name && x.epoch == epoch && x.val == val
  {
    hide IsRun, End, Stepped, IsWindow, BucketFor, Booked, NewBuckets, Config.Valid, NoneDue;
    var s := Final(cfg, now, es);
    NothingIsClosedEarly(cfg, now, es);
    PutOutcome(cfg, s, name, epoch, val, splay);
    var bs := BucketsFor(cfg, s, name);
    NoBucketExactlyWhen(cfg, bs, epoch);
    NewReachesBack(cfg, s.clock);
    NewIsWindow(cfg, s.clock);
    if name in s.invs {
      assert WindowOk(cfg, s, s.invs[name]) && Progress(cfg, s, name, s.invs[name]);
    }
    assert !OutsideWindow(cfg, bs, epoch);
  }

  /** An invocation is unlinked when its turn comes exactly if no bucket holds a sample; else its buckets stay. */
  lemma {:induction false} UnlinkedExactlyWhen(cfg: Config, s: State, n: string)
    requires Valid(cfg, s) && Enabled(cfg, s, Finish(n))
    ensures var t := Stepped(cfg, s, Finish(n));
            && (n in t.invs <==> exists i :: 0 <= i < |s.invs[n].buckets| && s.invs[n].buckets[i].cnt > 0)
            && (n in t.invs ==> t.invs[n].buckets == s.invs[n].buckets && t.invs[n].id == s.invs[n].id)
            && (forall o :: o != n ==> (o in t.invs <==> o in s.invs) && (o in s.invs ==> t.invs[o] == s.invs[o]))
  {
    hide Valid, NoneDue;
  }

  // ---------------------------------------------------------------------
  // The steps of a pass are the loops of a window
  // ---------------------------------------------------------------------

  /** The scan of one invocation, from where it stands to its end, with nothing in between. */
  ghost function ScannedOut(cfg: Config, s: State): (t: State)
    requires InStep(cfg, s) && s.phase.Marking? && s.phase.scan.Some?
    decreases |s.invs[s.phase.scan.value.name].buckets| - s.phase.scan.value.at
  {
    ScannedInStep(cfg, s);
    var t := Scanned(s);
    if t.phase.scan.None? then t
    else
      assert t.phase.scan.value.at == s.phase.scan.value.at + 1;
      ScannedOut(cfg, t)
  }

  function AsEmissions(name: string, inv: Invocation, ws: seq<Written>): seq<Emission> {
    seq(|ws|, i requires 0 <= i < |ws| => Emission(Key(name, inv.id, ws[i].start), ws[i]))
  }

  /** What `Window.Expire` has done after `i` turns of its loop. */
  ghost predicate ScannedTo(s0: State, s: State, n: string, i: nat) {
    && n in s0.invs && n in s.invs && i <= |s0.invs[n].buckets|
    && s.pass == s0.pass && s.invs[n].expire == s0.invs[n].expire && s.invs[n].id == s0.invs[n].id
    && s.invs[n].buckets == Marked(s0.invs[n].buckets, i)
    && s.emitted == s0.emitted + AsEmissions(n, s0.invs[n], Emits(s0.invs[n].buckets, i))
  }

  lemma {:induction false} ScannedOneMore(s0: State, s: State, n: string, i: nat)
    requires ScannedTo(s0, s, n, i) && i < |s0.invs[n].buckets|
    ensures ScannedTo(s0, Closed(s, n, i), n, i + 1)
  {
    var inv, bs := s0.invs[n], s0.invs[n].buckets;
    var t := Closed(s, n, i);
    assert s.invs[n].buckets[i] == bs[i];
    assert t.invs[n].buckets == Marked(bs, i + 1);
    var more := if !bs[i].expired && bs[i].cnt > 0 then [Write(bs[i])] else [];
    assert Emits(bs, i + 1) == Emits(bs, i) + more;
    assert AsEmissions(n, inv, Emits(bs, i) + more) ==
           AsEmissions(n, inv, Emits(bs, i)) + AsEmissions(n, inv, more);
  }

  lemma {:induction false} ScanGoesOn(cfg: Config, s0: State, s: State, n: string, i: nat)
    requires InStep(cfg, s) && s.phase.Marking? && s.phase.scan == Some(Scan(n, i)) && ScannedTo(s0, s, n, i)
    requires DueFrom(s0.invs[n].buckets, s0.invs[n].expire, s0.pass, i) ==
             Due(s0.invs[n].buckets, s0.invs[n].expire, s0.pass)
    ensures var k := Due(s0.invs[n].buckets, s0.invs[n].expire, s0.pass);
            ScannedTo(s0, ScannedOut(cfg, s), n, k)
    decreases |s.invs[n].buckets| - i
  {
    hide InStep, Closed, Marked, Emits, AsEmissions;
    ScannedInStep(cfg, s);
    ScanIsInside(cfg, s);
    var inv, bs := s0.invs[n], s0.invs[n].buckets;
    MarkedAt(bs, i);
    if bs[i].start + inv.expire < s0.pass {
      ScannedOneMore(s0, s, n, i);
      ScanGoesOn(cfg, s0, Scanned(s), n, i + 1);
    }
  }

  lemma {:induction false} ScanIsInside(cfg: Config, s: State)
    requires InStep(cfg, s) && s.phase.Marking? && s.phase.scan.Some?
    ensures s.phase.scan.value.name in s.invs
    ensures s.phase.scan.value.at < |s.invs[s.phase.scan.value.name].buckets|
    ensures PhaseOk(s)
  {
  }

  lemma {:induction false} MarkedAt(bs: seq<Bucket>, i: nat)
    requires i < |bs|
    ensures |Marked(bs, i)| == |bs| && Marked(bs, i)[i] == bs[i]
  {
  }

  /** Main result: an undisturbed scan does to an invocation what `Window.Expire` does to its window. */
  lemma {:induction false} ScanIsExpire(cfg: Config, s: State, n: string)
    requires InStep(cfg, s) && s.phase.Marking? && s.phase.scan == Some(Scan(n, 0)) && n in s.invs
    ensures var k := Due(s.invs[n].buckets, s.invs[n].expire, s.pass);
            var t := ScannedOut(cfg, s);
            && n in t.invs && t.invs[n].buckets == Marked(s.invs[n].buckets, k)
            && t.emitted == s.emitted + AsEmissions(n, s.invs[n], Emits(s.invs[n].buckets, k))
  {
    hide InStep, ScannedOut;
    var bs := s.invs[n].buckets;
    assert Marked(bs, 0) == bs && AsEmissions(n, s.invs[n], []) == [];
    assert s.emitted + [] == s.emitted;
    ScanGoesOn(cfg, s, s, n, 0);
  }

  /** The rotations of one invocation, until its first bucket is open. */
  ghost function TurnedOut(cfg: Config, s: State, n: string): State
    requires n in s.invs && s.invs[n].buckets != []
    decreases ExpiredCount(s.invs[n].buckets)
  {
    if s.invs[n].buckets[0].expired then
      RotationProgress(s.invs[n].buckets, cfg.interval);
      TurnedOut(cfg, Turned(cfg, s, n), n)
    else s
  }

  /** Undisturbed rotations do what `Window.Rotate` does. */
  lemma {:induction false} TurnsAreRotate(cfg: Config, s: State, n: string)
    requires n in s.invs && s.invs[n].buckets != []
    ensures n in TurnedOut(cfg, s, n).invs
    ensures TurnedOut(cfg, s, n).invs[n].buckets == Rotated(s.invs[n].buckets, cfg.interval)
    decreases ExpiredCount(s.invs[n].buckets)
  {
    hide RotateOne;
    if s.invs[n].buckets[0].expired {
      RotationProgress(s.invs[n].buckets, cfg.interval);
      TurnsAreRotate(cfg, Turned(cfg, s, n), n);
    }
  }
}
