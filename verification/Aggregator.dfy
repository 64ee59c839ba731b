/**
 * Runs of one compute of an aggregator (`aggregator.c`): putters and the expiry
 * thread take atomic steps over a clock, on a map from output names to windows.
 * `accepted` and `emitted` are histories of what was taken in and written out.
 */
module Aggregation {
  import opened Common
  import opened Windows

  /** A bucket, identified for good: the name, the incarnation of its invocation, its start. */
  datatype Key = Key(name: string, id: nat, start: int)

  datatype Sample = Sample(key: Key, epoch: int, val: real)

  datatype Emission = Emission(key: Key, what: Written)

  /** `seen`: the pass its window was last advanced for; `mark`: the pass it was last scanned in. */
  datatype Invocation = Invocation(id: nat, expire: nat, seen: int, mark: int, buckets: seq<Bucket>)

  function KeyOf(name: string, inv: Invocation, b: Bucket): Key {
    Key(name, inv.id, b.start)
  }

  // ---------------------------------------------------------------------
  // What an aggregate has to say
  // ---------------------------------------------------------------------

  /** The values of the samples with a given key, in order of arrival. */
  function Values(log: seq<Sample>, key: Key): seq<real> {
    if log == [] then []
    else
      var x := log[|log| - 1];
      Values(log[..|log| - 1], key) + if x.key == key then [x.val] else []
  }

  function Sum(vs: seq<real>): real {
    if vs == [] then 0.0 else Sum(vs[..|vs| - 1]) + vs[|vs| - 1]
  }

  ghost predicate Summarises(w: Written, vs: seq<real>) {
    && w.cnt == |vs|
    && (vs != [] ==>
          && w.sum == Sum(vs)
          && w.max in vs && (forall v :: v in vs ==> v <= w.max)
          && w.min in vs && (forall v :: v in vs ==> w.min <= v))
  }

  lemma {:induction false} AddSummarises(b: Bucket, vs: seq<real>, val: real)
    requires Summarises(Write(b), vs)
    ensures Summarises(Write(AddSample(b, val)), vs + [val])
  {
    assert (vs + [val])[..|vs|] == vs;
    assert val in vs + [val];
    assert forall v :: v in vs ==> v in vs + [val];
    assert Sum([]) == 0.0;
  }

  lemma {:induction false} ValuesSnoc(log: seq<Sample>, x: Sample, key: Key)
    ensures Values(log + [x], key) == if x.key == key then Values(log, key) + [x.val] else Values(log, key)
  {
    assert (log + [x])[..|log|] == log;
  }

  /** A key has values exactly when some sample carries it. */
  lemma {:induction false} ValuesExist(log: seq<Sample>, key: Key)
    ensures Values(log, key) != [] <==> exists x :: x in log && x.key == key
    decreases |log|
  {
    if log != [] {
      var m := log[..|log| - 1];
      ValuesExist(m, key);
      assert log == m + [log[|log| - 1]];
      assert log[|log| - 1] in log;
      assert forall x :: x in m ==> x in log;
    }
  }

  // ---------------------------------------------------------------------
  // State
  // ---------------------------------------------------------------------

  /** The expiry thread: between passes, marking (with a scan under way), or sweeping. */
  datatype Phase =
    | Idle
    | Marking(todo: set<string>, scan: Option<Scan>)
    | Sweeping(todo: set<string>)

  datatype Scan = Scan(name: string, at: nat)

  datatype State = State(clock: nat, pass: nat, phase: Phase, invs: map<string, Invocation>, nextId: nat,
                         offered: nat, dropped: nat, accepted: seq<Sample>, emitted: seq<Emission>)

  function Init(now: nat): State {
    State(now, now, Idle, map[], 0, 0, 0, [], [])
  }

  // ---------------------------------------------------------------------
  // Invariant, first half: windows and passes
  // ---------------------------------------------------------------------

  ghost predicate WindowOk(cfg: Config, s: State, inv: Invocation) {
    && IsWindow(cfg, inv.buckets)
    && inv.expire >= cfg.expire
    && Last(inv.buckets) + inv.expire >= inv.seen + cfg.expire
    && NoneDue(inv.buckets, inv.expire, inv.mark)
    && inv.mark <= s.pass
  }

  /** How far an invocation has come in the current pass. */
  ghost predicate Progress(cfg: Config, s: State, name: string, inv: Invocation) {
    match s.phase
    case Idle => inv.seen >= s.pass
    case Marking(todo, _) =>
      s.pass <= inv.seen + cfg.expire && (name in todo || inv.mark == s.pass || inv.seen >= s.pass)
    case Sweeping(todo) => inv.seen >= s.pass || (name in todo && inv.mark == s.pass)
  }

  ghost predicate PhaseOk(s: State) {
    match s.phase
    case Idle => true
    case Sweeping(todo) => todo <= s.invs.Keys
    case Marking(todo, scan) =>
      && todo <= s.invs.Keys
      && (scan.Some? ==> scan.value.name in s.invs && scan.value.at < |s.invs[scan.value.name].buckets|
                         && ExpiredUpTo(s.invs[scan.value.name].buckets, scan.value.at))
  }

  ghost predicate InStep(cfg: Config, s: State) {
    && cfg.Valid() && s.pass <= s.clock && cfg.expire <= s.clock && PhaseOk(s)
    && forall n :: n in s.invs ==> WindowOk(cfg, s, s.invs[n]) && Progress(cfg, s, n, s.invs[n])
  }

  // ---------------------------------------------------------------------
  // Invariant, second half: the books
  // ---------------------------------------------------------------------

  ghost predicate Emitted(em: seq<Emission>, key: Key) {
    exists e :: e in em && e.key == key
  }

  /** A bucket sums up its samples, and has been written if it is expired and holds any. */
  ghost predicate BucketOk(acc: seq<Sample>, em: seq<Emission>, key: Key, b: Bucket) {
    && Summarises(Write(b), Values(acc, key))
    && (!b.expired ==> !Emitted(em, key))
    && (b.expired && b.cnt > 0 ==> Emitted(em, key))
  }

  ghost predicate InvocationOk(acc: seq<Sample>, em: seq<Emission>, name: string, inv: Invocation) {
    forall i :: 0 <= i < |inv.buckets| ==> BucketOk(acc, em, KeyOf(name, inv, inv.buckets[i]), inv.buckets[i])
  }

  predicate Current(invs: map<string, Invocation>, key: Key) {
    key.name in invs && invs[key.name].id == key.id
  }

  ghost predicate Live(invs: map<string, Invocation>, key: Key) {
    Current(invs, key) && exists i :: 0 <= i < |invs[key.name].buckets| && invs[key.name].buckets[i].start == key.start
  }

  ghost predicate SampleOk(cfg: Config, s: State, x: Sample) {
    && x.key.start <= x.epoch < x.key.start + cfg.interval
    && x.key.id < s.nextId
    && (Current(s.invs, x.key) ==> s.invs[x.key.name].buckets != [] && x.key.start <= Last(s.invs[x.key.name].buckets))
    && (Live(s.invs, x.key) || Emitted(s.emitted, x.key))
  }

  ghost predicate EmissionOk(acc: seq<Sample>, e: Emission) {
    e.what.start == e.key.start && e.what.cnt > 0 && Summarises(e.what, Values(acc, e.key))
  }

  ghost predicate WrittenOnce(em: seq<Emission>) {
    forall i, j :: 0 <= i < j < |em| ==> em[i].key != em[j].key
  }

  ghost predicate Booked(cfg: Config, s: State) {
    && s.offered == |s.accepted| + s.dropped
    && (forall n :: n in s.invs ==> s.invs[n].id < s.nextId && InvocationOk(s.accepted, s.emitted, n, s.invs[n]))
    && (forall x :: x in s.accepted ==> SampleOk(cfg, s, x))
    && (forall e :: e in s.emitted ==> EmissionOk(s.accepted, e))
    && WrittenOnce(s.emitted)
  }

  ghost predicate Valid(cfg: Config, s: State) {
    InStep(cfg, s) && Booked(cfg, s)
  }

  // ---------------------------------------------------------------------
  // Steps
  // ---------------------------------------------------------------------

  /** A new invocation for a name that has none, with a random splay on its expiry. */
  function Created(cfg: Config, s: State, name: string, splay: nat): State
    requires cfg.Valid() && s.clock >= cfg.expire
  {
    var inv := Invocation(s.nextId, cfg.expire + splay, s.clock, 0, NewBuckets(cfg, s.clock));
    s.(invs := s.invs[name := inv], nextId := s.nextId + 1)
  }

  /** A sample goes into its bucket or is dropped. */
  function Placed(cfg: Config, s: State, name: string, epoch: int, val: real): State
    requires name in s.invs && IsWindow(cfg, s.invs[name].buckets)
  {
    var inv := s.invs[name];
    var k := BucketFor(cfg, inv.buckets, epoch);
    BucketContainsEpoch(cfg, inv.buckets, epoch);
    if k.None? then s.(offered := s.offered + 1, dropped := s.dropped + 1)
    else
      var b := inv.buckets[k.value];
      s.(offered := s.offered + 1,
         accepted := s.accepted + [Sample(KeyOf(name, inv, b), epoch, val)],
         invs := s.invs[name := inv.(buckets := inv.buckets[k.value := AddSample(b, val)])])
  }

  /** One bucket past its expiry: close it, and write it out if it was open and not empty. */
  function Closed(s: State, name: string, i: nat): State
    requires name in s.invs && i < |s.invs[name].buckets|
  {
    var inv := s.invs[name];
    var b := inv.buckets[i];
    s.(invs := s.invs[name := inv.(buckets := MarkAt(inv.buckets, i))],
       emitted := s.emitted + if !b.expired && b.cnt > 0 then [Emission(KeyOf(name, inv, b), Write(b))] else [])
  }

  function Turned(cfg: Config, s: State, name: string): State
    requires name in s.invs && s.invs[name].buckets != []
  {
    var inv := s.invs[name];
    s.(invs := s.invs[name := inv.(buckets := RotateOne(inv.buckets, cfg.interval))])
  }

  predicate Empty(inv: Invocation) {
    forall i :: 0 <= i < |inv.buckets| ==> inv.buckets[i].cnt == 0
  }

  datatype Event =
    | Tick(to: nat)
    | Put(name: string, epoch: int, val: real, splay: nat)
    | BeginPass
    | BeginScan(name: string)
    | ScanStep
    | BeginSweep
    | Rotate(name: string)
    | Finish(name: string)
    | EndPass

  /** When a step can be taken; passes begin at most `expire` apart. */
  predicate Enabled(cfg: Config, s: State, e: Event) {
    match e
    case Tick(to) => s.clock <= to
    case Put(_, _, _, splay) => splay < cfg.interval
    case BeginPass => s.phase.Idle? && s.clock <= s.pass + cfg.expire
    case BeginScan(n) => s.phase.Marking? && s.phase.scan.None? && n in s.invs
    case ScanStep => s.phase.Marking? && s.phase.scan.Some?
    case BeginSweep => s.phase == Marking({}, None)
    case Rotate(n) =>
      s.phase.Sweeping? && n in s.phase.todo && n in s.invs && s.invs[n].buckets != [] && s.invs[n].buckets[0].expired
    case Finish(n) =>
      s.phase.Sweeping? && n in s.phase.todo && n in s.invs && s.invs[n].buckets != [] && !s.invs[n].buckets[0].expired
    case EndPass => s.phase == Sweeping({})
  }

  function Stepped(cfg: Config, s: State, e: Event): State
    requires Valid(cfg, s) && Enabled(cfg, s, e)
  {
    match e
    case Tick(to) => s.(clock := to)
    case Put(name, epoch, val, splay) =>
      if name in s.invs then Placed(cfg, s, name, epoch, val)
      else
        NewIsWindow(cfg, s.clock);
        Placed(cfg, Created(cfg, s, name, splay), name, epoch, val)
    case BeginPass => s.(pass := s.clock, phase := Marking(s.invs.Keys, None))
    case BeginScan(n) => s.(phase := s.phase.(scan := Some(Scan(n, 0))))
    case ScanStep => Scanned(s)
    case BeginSweep => s.(phase := Sweeping(s.invs.Keys))
    case Rotate(n) => Turned(cfg, s, n)
    case Finish(n) => Finished(s, n)
    case EndPass => s.(phase := Idle)
  }

  /** The scan looks at one bucket, which has to be there. */
  function Scanned(s: State): State
    requires PhaseOk(s) && s.phase.Marking? && s.phase.scan.Some?
  {
    var Scan(n, i) := s.phase.scan.value;
    var inv := s.invs[n];
    if inv.buckets[i].start + inv.expire < s.pass then
      Closed(s, n, i).(phase := s.phase.(scan := Some(Scan(n, i + 1))))
    else
      s.(invs := s.invs[n := inv.(mark := s.pass)], phase := Marking(s.phase.todo - {n}, None))
  }

  /** An invocation without samples is unlinked. */
  function Finished(s: State, name: string): State
    requires name in s.invs && s.phase.Sweeping?
  {
    var inv := s.invs[name];
    var seen := if inv.seen < inv.mark then inv.mark else inv.seen;
    s.(invs := if Empty(inv) then s.invs - {name} else s.invs[name := inv.(seen := seen)],
       phase := Sweeping(s.phase.todo - {name}))
  }

  // ---------------------------------------------------------------------
  // Windows and passes are kept
  // ---------------------------------------------------------------------

  lemma {:induction false} CreatedInStep(cfg: Config, s: State, name: string, splay: nat)
    requires InStep(cfg, s) && name !in s.invs
    ensures InStep(cfg, Created(cfg, s, name, splay))
  {
    hide IsWindow, Times, NewBuckets;
    NewIsWindow(cfg, s.clock);
    NewNotDue(cfg, s.clock);
  }

  lemma {:induction false} BaseNotNegative(cfg: Config, now: nat)
    requires cfg.Valid() && now >= cfg.expire
    ensures Base(cfg, now) >= 0 && cfg.interval > 0
  {
    hide Times, Config.BucketCount;
    TimesStep(0, cfg.interval);
    TimesMonotone(0, (now - cfg.expire) / cfg.interval, cfg.interval);
  }

  lemma {:induction false} NewNotDue(cfg: Config, now: nat)
    requires cfg.Valid() && now >= cfg.expire
    ensures forall exp: nat :: NoneDue(NewBuckets(cfg, now), exp, 0)
  {
    hide Times, Base, Config.Valid, Config.BucketCount;
    var bs := NewBuckets(cfg, now);
    BaseNotNegative(cfg, now);
    TimesStep(0, cfg.interval);
    forall i | 0 <= i < |bs| ensures bs[i].start >= 0 {
      TimesMonotone(0, i, cfg.interval);
    }
  }

  lemma {:induction false} PlacedInStep(cfg: Config, s: State, name: string, epoch: int, val: real)
    requires InStep(cfg, s) && name in s.invs
    ensures InStep(cfg, Placed(cfg, s, name, epoch, val))
  {
    hide IsWindow, Times, Config.Valid, BucketFor, NoneDue, ExpiredUpTo, AddSample;
    NotEmpty(cfg, s.invs[name].buckets);
    BucketContainsEpoch(cfg, s.invs[name].buckets, epoch);
    var k := BucketFor(cfg, s.invs[name].buckets, epoch);
    if k.Some? {
      var bs := s.invs[name].buckets;
      SampleKeepsPlace(bs[k.value], val);
      ReplacedWindow(cfg, bs, k.value, AddSample(bs[k.value], val));
    }
  }

  lemma {:induction false} SampleKeepsPlace(b: Bucket, val: real)
    ensures AddSample(b, val).start == b.start && AddSample(b, val).expired == b.expired
  {
  }

  /** Neither the window's shape nor what is due depends on the contents of a bucket. */
  lemma {:induction false} ReplacedWindow(cfg: Config, bs: seq<Bucket>, k: nat, b: Bucket)
    requires IsWindow(cfg, bs) && k < |bs| && b.start == bs[k].start && b.expired == bs[k].expired
    ensures IsWindow(cfg, bs[k := b]) && Last(bs[k := b]) == Last(bs)
    ensures forall exp: nat, now :: NoneDue(bs, exp, now) ==> NoneDue(bs[k := b], exp, now)
    ensures forall i: nat :: ExpiredUpTo(bs, i) ==> ExpiredUpTo(bs[k := b], i)
  {
    hide Times, Config.BucketCount, Config.Valid;
    assert forall i :: 0 <= i < |bs| ==> bs[k := b][i].start == bs[i].start && bs[k := b][i].expired == bs[i].expired;
  }

  lemma {:induction false} ScannedInStep(cfg: Config, s: State)
    requires InStep(cfg, s) && s.phase.Marking? && s.phase.scan.Some?
    ensures InStep(cfg, Scanned(s))
  {
    hide IsWindow, Times, Config.Valid, MarkAt;
    var Scan(n, i) := s.phase.scan.value;
    var inv := s.invs[n];
    assert s.pass <= inv.seen + cfg.expire;
    if inv.buckets[i].start + inv.expire < s.pass {
      MarkStep(cfg, inv.buckets, i, inv.expire, s.pass);
      MarkedNotDue(inv.buckets, i, inv.expire, inv.mark);
    } else {
      ScanDone(cfg, inv.buckets, i, inv.expire, s.pass);
    }
  }

  lemma {:induction false} MarkedNotDue(bs: seq<Bucket>, i: nat, exp: nat, now: int)
    requires i < |bs| && NoneDue(bs, exp, now)
    ensures NoneDue(MarkAt(bs, i), exp, now)
  {
    assert forall j :: 0 <= j < |bs| && !MarkAt(bs, i)[j].expired ==> MarkAt(bs, i)[j] == bs[j];
  }

  lemma {:induction false} TurnedInStep(cfg: Config, s: State, name: string)
    requires InStep(cfg, s) && s.phase.Sweeping? && name in s.invs && s.invs[name].buckets[0].expired
    ensures InStep(cfg, Turned(cfg, s, name))
  {
    hide IsWindow, Times, Config.Valid, RotateOne;
    RotateOneKeepsWindow(cfg, s.invs[name].buckets);
    RotatedNotDue(cfg, s.invs[name].buckets, s.invs[name].expire, s.invs[name].mark);
  }

  lemma {:induction false} RotatedNotDue(cfg: Config, bs: seq<Bucket>, exp: nat, now: int)
    requires IsWindow(cfg, bs) && NoneDue(bs, exp, now)
    ensures NoneDue(RotateOne(bs, cfg.interval), exp, now)
  {
    hide Times, Config.BucketCount;
    var r := RotateOne(bs, cfg.interval);
    assert forall i :: 0 <= i < |r| - 1 ==> r[i] == bs[i + 1];
  }

  lemma {:induction false} FinishedInStep(cfg: Config, s: State, name: string)
    requires InStep(cfg, s) && s.phase.Sweeping? && name in s.phase.todo && name in s.invs
    requires !s.invs[name].buckets[0].expired
    ensures InStep(cfg, Finished(s, name))
  {
    hide Times, Config.Valid, Empty;
    var inv := s.invs[name];
    WindowLength(cfg);
    assert inv.buckets[0].start + inv.expire >= inv.mark;
  }

  lemma {:induction false} StepInStep(cfg: Config, s: State, e: Event)
    requires Valid(cfg, s) && Enabled(cfg, s, e)
    ensures InStep(cfg, Stepped(cfg, s, e))
  {
    hide IsWindow, Times, Placed, Created, Scanned, Turned, Finished, Booked, NoneDue;
    match e
    case Put(name, epoch, val, splay) =>
      if name in s.invs {
        PlacedInStep(cfg, s, name, epoch, val);
      } else {
        CreatedInStep(cfg, s, name, splay);
        NewIsWindow(cfg, s.clock);
        CreatedHas(cfg, s, name, splay);
        PlacedInStep(cfg, Created(cfg, s, name, splay), name, epoch, val);
      }
    case ScanStep => ScannedInStep(cfg, s);
    case Rotate(n) => TurnedInStep(cfg, s, n);
    case Finish(n) => FinishedInStep(cfg, s, n);
    case Tick(_) =>
    case BeginPass =>
    case BeginScan(n) => NotEmpty(cfg, s.invs[n].buckets);
    case BeginSweep =>
    case EndPass =>
  }

  lemma {:induction false} NotEmpty(cfg: Config, bs: seq<Bucket>)
    requires IsWindow(cfg, bs)
    ensures bs != [] && cfg.interval > 0
  {
  }

  lemma {:induction false} CreatedHas(cfg: Config, s: State, name: string, splay: nat)
    requires cfg.Valid() && s.clock >= cfg.expire
    ensures name in Created(cfg, s, name, splay).invs
  {
  }

  // ---------------------------------------------------------------------
  // The books are kept
  // ---------------------------------------------------------------------

  /** Nothing is on the books under a key that no sample carries. */
  lemma {:induction false} UnusedKey(cfg: Config, s: State, key: Key)
    requires Booked(cfg, s)
    requires forall x :: x in s.accepted ==> x.key != key
    ensures Values(s.accepted, key) == [] && !Emitted(s.emitted, key)
  {
    hide SampleOk, InvocationOk;
    ValuesExist(s.accepted, key);
    forall e | e in s.emitted ensures e.key != key {
      assert EmissionOk(s.accepted, e);
    }
  }

  lemma {:induction false} CreatedBooked(cfg: Config, s: State, name: string, splay: nat)
    requires InStep(cfg, s) && Booked(cfg, s) && name !in s.invs
    ensures Booked(cfg, Created(cfg, s, name, splay))
  {
    hide IsWindow, Times, Config.Valid, Values, EmissionOk, WrittenOnce, Live, Base;
    var t := Created(cfg, s, name, splay);
    var inv := t.invs[name];
    forall i | 0 <= i < |inv.buckets|
      ensures BucketOk(t.accepted, t.emitted, KeyOf(name, inv, inv.buckets[i]), inv.buckets[i])
    {
      UnusedKey(cfg, s, KeyOf(name, inv, inv.buckets[i]));
    }
    forall x | x in s.accepted ensures SampleOk(cfg, t, x) {
      assert SampleOk(cfg, s, x);
      StillLive(s.invs, t.invs, x.key);
    }
  }

  /** Keys stay live when the buckets keep their starts. */
  lemma {:induction false} StillLive(invs: map<string, Invocation>, next: map<string, Invocation>, key: Key)
    requires Current(invs, key) ==> Current(next, key) && SameStarts(invs[key.name].buckets, next[key.name].buckets)
    ensures Live(invs, key) ==> Live(next, key)
  {
  }

  ghost predicate SameStarts(bs: seq<Bucket>, cs: seq<Bucket>) {
    |bs| == |cs| && forall i :: 0 <= i < |bs| ==> bs[i].start == cs[i].start
  }

  /** Different buckets of a window have different starts. */
  lemma {:induction false} StartsDiffer(cfg: Config, bs: seq<Bucket>, i: nat, j: nat)
    requires IsWindow(cfg, bs) && i < |bs| && j < |bs| && i != j
    ensures bs[i].start != bs[j].start
  {
    hide Times, Config.BucketCount;
    var lo, hi := if i < j then i else j, if i < j then j else i;
    TimesStep(lo, cfg.interval);
    TimesMonotone(lo + 1, hi, cfg.interval);
  }

  // Placing a sample

  lemma {:induction false} PlacedBooked(cfg: Config, s: State, name: string, epoch: int, val: real)
    requires InStep(cfg, s) && Booked(cfg, s) && name in s.invs
    ensures Booked(cfg, Placed(cfg, s, name, epoch, val))
  {
    hide IsWindow, Times, Config.Valid, Values, Emitted, Summarises, AddSample, BucketFor, NoneDue;
    var inv := s.invs[name];
    NotEmpty(cfg, inv.buckets);
    BucketContainsEpoch(cfg, inv.buckets, epoch);
    var k := BucketFor(cfg, inv.buckets, epoch);
    var t := Placed(cfg, s, name, epoch, val);
    if k.Some? {
      var key := KeyOf(name, inv, inv.buckets[k.value]);
      var x := Sample(key, epoch, val);
      SampleKeepsPlace(inv.buckets[k.value], val);
      PlacedInvocations(cfg, s, t, name, k.value, x);
      forall y | y in t.accepted ensures SampleOk(cfg, t, y) {
        PlacedSample(cfg, s, t, name, k.value, x, y);
      }
      forall e | e in t.emitted ensures EmissionOk(t.accepted, e) {
        assert EmissionOk(s.accepted, e);
        EmissionUntouched(s, x, e);
      }
    }
  }

  lemma {:induction false} EmissionUntouched(s: State, x: Sample, e: Emission)
    requires e in s.emitted && !Emitted(s.emitted, x.key)
    ensures Values(s.accepted + [x], e.key) == Values(s.accepted, e.key)
  {
    hide Values;
    ValuesSnoc(s.accepted, x, e.key);
  }

  ghost predicate PlacedAt(cfg: Config, s: State, t: State, name: string, k: nat, x: Sample) {
    && name in s.invs && k < |s.invs[name].buckets|
    && var inv := s.invs[name];
       && IsWindow(cfg, inv.buckets)
       && !inv.buckets[k].expired
       && x.key == KeyOf(name, inv, inv.buckets[k])
       && Contains(cfg, inv.buckets[k], x.epoch)
       && t == s.(offered := s.offered + 1, accepted := s.accepted + [x],
                  invs := s.invs[name := inv.(buckets := inv.buckets[k := AddSample(inv.buckets[k], x.val)])])
  }

  lemma {:induction false} PlacedInvocations(cfg: Config, s: State, t: State, name: string, k: nat, x: Sample)
    requires Booked(cfg, s) && PlacedAt(cfg, s, t, name, k, x)
    ensures forall n :: n in t.invs ==> t.invs[n].id < t.nextId && InvocationOk(t.accepted, t.emitted, n, t.invs[n])
  {
    hide IsWindow, Times, Values, Emitted, Summarises, AddSample, SampleOk, EmissionOk, WrittenOnce;
    SampleKeepsPlace(s.invs[name].buckets[k], x.val);
    forall n, i | n in t.invs && 0 <= i < |t.invs[n].buckets|
      ensures BucketOk(t.accepted, t.emitted, KeyOf(n, t.invs[n], t.invs[n].buckets[i]), t.invs[n].buckets[i])
    {
      var b := s.invs[n].buckets[i];
      var key := KeyOf(n, s.invs[n], b);
      assert BucketOk(s.accepted, s.emitted, key, b);
      ValuesSnoc(s.accepted, x, key);
      if n == name && i != k {
        StartsDiffer(cfg, s.invs[name].buckets, i, k);
      } else if n == name {
        SampleCounted(b, Values(s.accepted, key), x.val);
      }
    }
  }

  lemma {:induction false} SampleCounted(b: Bucket, vs: seq<real>, val: real)
    requires Summarises(Write(b), vs)
    ensures Summarises(Write(AddSample(b, val)), vs + [val]) && AddSample(b, val).cnt > 0
  {
    hide Summarises;
    AddSummarises(b, vs, val);
  }

  lemma {:induction false} PlacedSample(cfg: Config, s: State, t: State, name: string, k: nat, x: Sample, y: Sample)
    requires Booked(cfg, s) && PlacedAt(cfg, s, t, name, k, x) && y in t.accepted
    ensures SampleOk(cfg, t, y)
  {
    hide Times, Values, Emitted, Summarises, AddSample, EmissionOk, WrittenOnce, InvocationOk;
    var bs := s.invs[name].buckets;
    SampleKeepsPlace(bs[k], x.val);
    assert SameStarts(bs, t.invs[name].buckets);
    if y != x {
      assert SampleOk(cfg, s, y);
      StillLive(s.invs, t.invs, y.key);
    } else {
      assert t.invs[name].buckets[k].start == y.key.start;
      TimesMonotone(k, |bs| - 1, cfg.interval);
    }
  }

  // Closing a bucket

  lemma {:induction false} ClosedBooked(cfg: Config, s: State, name: string, i: nat)
    requires InStep(cfg, s) && Booked(cfg, s) && name in s.invs && i < |s.invs[name].buckets|
    ensures Booked(cfg, Closed(s, name, i))
  {
    hide IsWindow, Times, Config.Valid, Values, Emitted, NoneDue, Live, Summarises, WrittenOnce, InvocationOk;
    var t := Closed(s, name, i);
    ClosedInvocations(cfg, s, name, i);
    ClosedEmissions(cfg, s, name, i);
    forall x | x in t.accepted ensures SampleOk(cfg, t, x) {
      assert SampleOk(cfg, s, x);
      StillLive(s.invs, t.invs, x.key);
      EmittedGrows(s.emitted, t.emitted, x.key);
    }
  }

  lemma {:induction false} ClosedEmissions(cfg: Config, s: State, name: string, i: nat)
    requires Booked(cfg, s) && name in s.invs && i < |s.invs[name].buckets|
    ensures var t := Closed(s, name, i);
            WrittenOnce(t.emitted) && forall e :: e in t.emitted ==> EmissionOk(t.accepted, e)
  {
    hide Values, Emitted, SampleOk, Summarises;
    var b := s.invs[name].buckets[i];
    var key := KeyOf(name, s.invs[name], b);
    assert BucketOk(s.accepted, s.emitted, key, b);
    NotEmitted(s.emitted, key);
  }

  lemma {:induction false} EmittedGrows(em: seq<Emission>, fm: seq<Emission>, key: Key)
    requires em <= fm
    ensures Emitted(em, key) ==> Emitted(fm, key)
  {
    assert forall e :: e in em ==> e in fm;
  }

  lemma {:induction false} NotEmitted(em: seq<Emission>, key: Key)
    ensures !Emitted(em, key) <==> forall i :: 0 <= i < |em| ==> em[i].key != key
  {
  }

  lemma {:induction false} ClosedInvocations(cfg: Config, s: State, name: string, i: nat)
    requires Booked(cfg, s) && name in s.invs && IsWindow(cfg, s.invs[name].buckets) && i < |s.invs[name].buckets|
    ensures var t := Closed(s, name, i);
            forall n :: n in t.invs ==> t.invs[n].id < t.nextId && InvocationOk(t.accepted, t.emitted, n, t.invs[n])
  {
    hide IsWindow, Times, Values, Emitted, Summarises, SampleOk, EmissionOk, WrittenOnce;
    var t := Closed(s, name, i);
    var mine := KeyOf(name, s.invs[name], s.invs[name].buckets[i]);
    forall n, j | n in t.invs && 0 <= j < |t.invs[n].buckets|
      ensures BucketOk(t.accepted, t.emitted, KeyOf(n, t.invs[n], t.invs[n].buckets[j]), t.invs[n].buckets[j])
    {
      var b := s.invs[n].buckets[j];
      var key := KeyOf(n, s.invs[n], b);
      assert BucketOk(s.accepted, s.emitted, key, b);
      ClosedEmits(s, name, i, key);
      if n == name && i != j {
        StartsDiffer(cfg, s.invs[name].buckets, i, j);
      }
    }
  }

  lemma {:induction false} ClosedEmits(s: State, name: string, i: nat, key: Key)
    requires name in s.invs && i < |s.invs[name].buckets|
    ensures var b := s.invs[name].buckets[i];
            Emitted(Closed(s, name, i).emitted, key) <==>
            Emitted(s.emitted, key) || (!b.expired && b.cnt > 0 && key == KeyOf(name, s.invs[name], b))
  {
    var b := s.invs[name].buckets[i];
    var em := s.emitted;
    var fm := Closed(s, name, i).emitted;
    assert forall e :: e in em ==> e in fm;
    if !b.expired && b.cnt > 0 {
      assert fm[|em|] in fm;
    }
  }

  // Rotating

  lemma {:induction false} TurnedBooked(cfg: Config, s: State, name: string)
    requires InStep(cfg, s) && Booked(cfg, s) && name in s.invs && s.invs[name].buckets != [] &&
             s.invs[name].buckets[0].expired
    ensures Booked(cfg, Turned(cfg, s, name))
  {
    hide IsWindow, Times, Config.Valid, Values, Emitted, NoneDue, EmissionOk, WrittenOnce, Summarises;
    var t := Turned(cfg, s, name);
    TurnedInvocations(cfg, s, name);
    forall x | x in t.accepted ensures SampleOk(cfg, t, x) {
      TurnedSample(cfg, s, name, x);
    }
  }

  lemma {:induction false} TurnedInvocations(cfg: Config, s: State, name: string)
    requires InStep(cfg, s) && Booked(cfg, s) && name in s.invs && s.invs[name].buckets != [] &&
             s.invs[name].buckets[0].expired
    ensures var t := Turned(cfg, s, name);
            forall n :: n in t.invs ==> t.invs[n].id < t.nextId && InvocationOk(t.accepted, t.emitted, n, t.invs[n])
  {
    hide Times, Config.Valid, Config.BucketCount, Aligned, ExpiredInFront, Values, Emitted, NoneDue, EmissionOk,
         WrittenOnce, Live;
    var t := Turned(cfg, s, name);
    var bs := s.invs[name].buckets;
    var cs := t.invs[name].buckets;
    var m := |bs| - 1;
    UnusedKey(cfg, s, KeyOf(name, t.invs[name], cs[m]));
    forall j | 0 <= j < |cs| ensures BucketOk(t.accepted, t.emitted, KeyOf(name, t.invs[name], cs[j]), cs[j]) {
      if j < m {
        assert cs[j] == bs[j + 1];
        assert BucketOk(s.accepted, s.emitted, KeyOf(name, s.invs[name], bs[j + 1]), bs[j + 1]);
      }
    }
  }

  lemma {:induction false} TurnedSample(cfg: Config, s: State, name: string, x: Sample)
    requires InStep(cfg, s) && Booked(cfg, s) && name in s.invs && x in s.accepted
    requires s.invs[name].buckets != [] && s.invs[name].buckets[0].expired
    ensures SampleOk(cfg, Turned(cfg, s, name), x)
  {
    hide IsWindow, Times, Config.Valid, Values, Emitted, NoneDue, EmissionOk, WrittenOnce, Summarises, Live;
    var t := Turned(cfg, s, name);
    var inv := s.invs[name];
    var b := inv.buckets[0];
    assert SampleOk(cfg, s, x);
    RotateOneKeepsWindow(cfg, inv.buckets);
    if x.key.name != name {
      StillLive(s.invs, t.invs, x.key);
    } else if Live(s.invs, x.key) {
      LiveIsCurrent(s.invs, x.key);
      if x.key.start == b.start {
        assert BucketOk(s.accepted, s.emitted, KeyOf(name, inv, b), b);
        NonEmptyBucket(s.accepted, x, b);
      } else {
        TurnedLive(inv, t.invs[name], s, t, x.key, cfg.interval);
      }
    }
  }

  lemma {:induction false} LiveIsCurrent(invs: map<string, Invocation>, key: Key)
    requires Live(invs, key)
    ensures Current(invs, key)
  {
  }

  /** A live key stays live unless it is the one of the bucket rotated out. */
  lemma {:induction false} TurnedLive(inv: Invocation, next: Invocation, s: State, t: State, key: Key, interval: nat)
    requires key.name in s.invs && s.invs[key.name] == inv && key.name in t.invs && t.invs[key.name] == next
    requires inv.buckets != [] && next == inv.(buckets := RotateOne(inv.buckets, interval))
    requires Live(s.invs, key) && key.start != inv.buckets[0].start
    ensures Live(t.invs, key)
  {
    var i :| 0 <= i < |inv.buckets| && inv.buckets[i].start == key.start;
    assert next.buckets[i - 1] == inv.buckets[i];
  }

  lemma {:induction false} NonEmptyBucket(acc: seq<Sample>, x: Sample, b: Bucket)
    requires x in acc && Summarises(Write(b), Values(acc, x.key))
    ensures b.cnt > 0
  {
    hide Values;
    ValuesExist(acc, x.key);
  }

  // Unlinking

  lemma {:induction false} FinishedBooked(cfg: Config, s: State, name: string)
    requires InStep(cfg, s) && Booked(cfg, s) && s.phase.Sweeping? && name in s.invs
    ensures Booked(cfg, Finished(s, name))
  {
    hide IsWindow, Times, Config.Valid, Values, Emitted, NoneDue, EmissionOk, WrittenOnce, Summarises, Live, Empty;
    var t := Finished(s, name);
    var inv := s.invs[name];
    forall x | x in s.accepted ensures SampleOk(cfg, t, x) {
      assert SampleOk(cfg, s, x);
      if Empty(inv) && x.key.name == name {
        EmptyHasNone(s, inv, x);
      } else {
        StillLive(s.invs, t.invs, x.key);
      }
    }
  }

  /** An empty invocation has no sample waiting in it. */
  lemma {:induction false} EmptyHasNone(s: State, inv: Invocation, x: Sample)
    requires x.key.name in s.invs && s.invs[x.key.name] == inv && Empty(inv) && x in s.accepted
    requires InvocationOk(s.accepted, s.emitted, x.key.name, inv)
    ensures !Live(s.invs, x.key)
  {
    hide Values, Summarises, Emitted;
    forall i | 0 <= i < |inv.buckets| && inv.id == x.key.id ensures inv.buckets[i].start != x.key.start {
      var b := inv.buckets[i];
      assert BucketOk(s.accepted, s.emitted, KeyOf(x.key.name, inv, b), b);
      if b.start == x.key.start {
        NonEmptyBucket(s.accepted, x, b);
      }
    }
  }

  lemma {:induction false} ScannedBooked(cfg: Config, s: State)
    requires InStep(cfg, s) && Booked(cfg, s) && s.phase.Marking? && s.phase.scan.Some?
    ensures Booked(cfg, Scanned(s))
  {
    hide IsWindow, Times, Config.Valid, Values, Emitted, NoneDue, EmissionOk, WrittenOnce, Summarises, Live, Closed;
    var Scan(n, i) := s.phase.scan.value;
    var inv := s.invs[n];
    var t := Scanned(s);
    if inv.buckets[i].start + inv.expire < s.pass {
      ClosedBooked(cfg, s, n, i);
      SameBooks(cfg, Closed(s, n, i), t);
    } else {
      forall x | x in s.accepted ensures SampleOk(cfg, t, x) {
        assert SampleOk(cfg, s, x);
        StillLive(s.invs, t.invs, x.key);
      }
    }
  }

  /** The books do not depend on the clock or on what the expiry thread is at. */
  lemma {:induction false} SameBooks(cfg: Config, s: State, t: State)
    requires Booked(cfg, s) && t == s.(clock := t.clock, pass := t.pass, phase := t.phase)
    ensures Booked(cfg, t)
  {
    hide Values, Emitted, EmissionOk, WrittenOnce, Summarises, Live, InvocationOk;
    forall x | x in s.accepted ensures SampleOk(cfg, t, x) {
      assert SampleOk(cfg, s, x);
    }
  }

  lemma {:induction false} StepBooked(cfg: Config, s: State, e: Event)
    requires Valid(cfg, s) && Enabled(cfg, s, e)
    ensures Booked(cfg, Stepped(cfg, s, e))
  {
    hide IsWindow, Times, Placed, Created, Scanned, Turned, Finished, Booked, NoneDue;
    var t := Stepped(cfg, s, e);
    match e
    case Put(name, epoch, val, splay) =>
      if name in s.invs {
        PlacedBooked(cfg, s, name, epoch, val);
      } else {
        CreatedInStep(cfg, s, name, splay);
        CreatedBooked(cfg, s, name, splay);
        CreatedHas(cfg, s, name, splay);
        PlacedBooked(cfg, Created(cfg, s, name, splay), name, epoch, val);
      }
    case ScanStep => ScannedBooked(cfg, s);
    case Rotate(n) => TurnedBooked(cfg, s, n);
    case Finish(n) => FinishedBooked(cfg, s, n);
    case Tick(_) => SameBooks(cfg, s, t);
    case BeginPass => SameBooks(cfg, s, t);
    case BeginScan(_) => SameBooks(cfg, s, t);
    case BeginSweep => SameBooks(cfg, s, t);
    case EndPass => SameBooks(cfg, s, t);
  }

  // ---------------------------------------------------------------------
  // Every run
  // ---------------------------------------------------------------------

  lemma {:induction false} StepKeepsValid(cfg: Config, s: State, e: Event)
    requires Valid(cfg, s) && Enabled(cfg, s, e)
    ensures Valid(cfg, Stepped(cfg, s, e))
  {
    hide InStep, Booked, Stepped, Enabled;
    StepInStep(cfg, s, e);
    StepBooked(cfg, s, e);
  }

  lemma {:induction false} InitIsValid(cfg: Config, now: nat)
    requires cfg.Valid() && now >= cfg.expire
    ensures Valid(cfg, Init(now))
  {
  }

  /** Can the events be taken one after the other? */
  ghost predicate IsRun(cfg: Config, s: State, es: seq<Event>)
    requires Valid(cfg, s)
    decreases |es|
  {
    es != [] ==> Enabled(cfg, s, es[0]) && (StepKeepsValid(cfg, s, es[0]); IsRun(cfg, Stepped(cfg, s, es[0]), es[1..]))
  }

  ghost function End(cfg: Config, s: State, es: seq<Event>): (t: State)
    requires Valid(cfg, s) && IsRun(cfg, s, es)
    ensures Valid(cfg, t)
    decreases |es|
  {
    if es == [] then s
    else
      StepKeepsValid(cfg, s, es[0]);
      End(cfg, Stepped(cfg, s, es[0]), es[1..])
  }

  ghost predicate Possible(cfg: Config, now: nat, es: seq<Event>)
    requires cfg.Valid() && now >= cfg.expire
  {
    InitIsValid(cfg, now);
    IsRun(cfg, Init(now), es)
  }

  /** The state a run from the start leads to. */
  ghost function Final(cfg: Config, now: nat, es: seq<Event>): (t: State)
    requires cfg.Valid() && now >= cfg.expire && Possible(cfg, now, es)
    ensures Valid(cfg, t)
  {
    InitIsValid(cfg, now);
    End(cfg, Init(now), es)
  }

  /** Main result: in every run, every window is in shape and a scan reads inside its array. */
  lemma {:induction false} WindowsStayInShape(cfg: Config, now: nat, es: seq<Event>)
    requires cfg.Valid() && now >= cfg.expire && Possible(cfg, now, es)
    ensures var t := Final(cfg, now, es);
            && (forall n :: n in t.invs ==> IsWindow(cfg, t.invs[n].buckets))
            && (t.phase.Marking? && t.phase.scan.Some? ==>
                  t.phase.scan.value.name in t.invs &&
                  t.phase.scan.value.at < |t.invs[t.phase.scan.value.name].buckets|)
  {
    hide IsWindow, Booked, NoneDue, Enabled, Stepped;
    var t := Final(cfg, now, es);
    assert PhaseOk(t);
  }

  /** Where a sample is: waiting in the one open bucket that holds it, or written with it. */
  ghost predicate Waiting(t: State, x: Sample, i: nat) {
    && Current(t.invs, x.key) && i < |t.invs[x.key.name].buckets|
    && var b := t.invs[x.key.name].buckets[i];
       b.start == x.key.start && !b.expired && Summarises(Write(b), Values(t.accepted, x.key))
  }

  ghost predicate WrittenIn(t: State, x: Sample, i: nat) {
    && i < |t.emitted| && t.emitted[i].key == x.key && t.emitted[i].what.start == x.key.start
    && Summarises(t.emitted[i].what, Values(t.accepted, x.key))
  }

  /**
   * Main result: in every run, every accepted sample belongs to a bucket whose
   * interval contains its epoch, and is accounted for by exactly one aggregate:
   * the one in an open bucket still to be written or, once that bucket is
   * closed, reused or unlinked, the one written for it.
   */
  lemma {:induction false} EverySampleIsWrittenOnce(cfg: Config, now: nat, es: seq<Event>, x: Sample)
    requires cfg.Valid() && now >= cfg.expire && Possible(cfg, now, es)
    requires x in Final(cfg, now, es).accepted
    ensures var t := Final(cfg, now, es);
            && x.key.start <= x.epoch < x.key.start + cfg.interval
            && (exists i: nat :: Waiting(t, x, i)) != (exists i: nat :: WrittenIn(t, x, i))
            && (forall i: nat, j: nat :: Waiting(t, x, i) && Waiting(t, x, j) ==> i == j)
            && (forall i: nat, j: nat ::
                  i < |t.emitted| && j < |t.emitted| && t.emitted[i].key == x.key == t.emitted[j].key ==> i == j)
  {
    hide IsWindow, Values, Summarises, Enabled, Stepped, NoneDue;
    var t := Final(cfg, now, es);
    assert SampleOk(cfg, t, x);
    forall i: nat, j: nat | Waiting(t, x, i) && Waiting(t, x, j) ensures i == j {
      assert WindowOk(cfg, t, t.invs[x.key.name]);
      if i != j {
        StartsDiffer(cfg, t.invs[x.key.name].buckets, i, j);
      }
    }
    if Emitted(t.emitted, x.key) {
      EmittedIsWritten(cfg, t, x);
    } else {
      UnemittedIsWaiting(cfg, t, x);
    }
  }

  lemma {:induction false} EmittedIsWritten(cfg: Config, t: State, x: Sample)
    requires Booked(cfg, t) && Emitted(t.emitted, x.key)
    ensures (exists i: nat :: WrittenIn(t, x, i)) && !exists i: nat :: Waiting(t, x, i)
  {
    hide Values, Summarises, SampleOk;
    var e :| e in t.emitted && e.key == x.key;
    var i: nat :| i < |t.emitted| && t.emitted[i] == e;
    assert EmissionOk(t.accepted, e);
    assert WrittenIn(t, x, i);
    forall j: nat | Current(t.invs, x.key) && j < |t.invs[x.key.name].buckets| ensures !Waiting(t, x, j) {
      var b := t.invs[x.key.name].buckets[j];
      assert BucketOk(t.accepted, t.emitted, KeyOf(x.key.name, t.invs[x.key.name], b), b);
    }
  }

  lemma {:induction false} UnemittedIsWaiting(cfg: Config, t: State, x: Sample)
    requires Booked(cfg, t) && !Emitted(t.emitted, x.key) && x in t.accepted
    ensures (exists i: nat :: Waiting(t, x, i)) && !exists i: nat :: WrittenIn(t, x, i)
  {
    hide Values, Summarises;
    assert SampleOk(cfg, t, x);
    var inv := t.invs[x.key.name];
    var i: nat :| i < |inv.buckets| && inv.buckets[i].start == x.key.start;
    var b := inv.buckets[i];
    assert BucketOk(t.accepted, t.emitted, KeyOf(x.key.name, inv, b), b);
    if b.expired {
      NonEmptyBucket(t.accepted, x, b);
    }
    assert Waiting(t, x, i);
    forall j: nat ensures !WrittenIn(t, x, j) {
      if WrittenIn(t, x, j) {
        NotEmitted(t.emitted, x.key);
      }
    }
  }

  /** Main result: nothing is made up: every aggregate sums up samples that were accepted, and all of them. */
  lemma {:induction false} AggregatesAreHonest(cfg: Config, now: nat, es: seq<Event>)
    requires cfg.Valid() && now >= cfg.expire && Possible(cfg, now, es)
    ensures var t := Final(cfg, now, es);
            && t.offered == |t.accepted| + t.dropped
            && forall e :: e in t.emitted ==>
                 e.what.start == e.key.start && e.what.cnt > 0 && Summarises(e.what, Values(t.accepted, e.key))
  {
    hide InStep, Values, Summarises, Enabled, Stepped, SampleOk, InvocationOk;
    var t := Final(cfg, now, es);
    forall e | e in t.emitted
      ensures e.what.start == e.key.start && e.what.cnt > 0 && Summarises(e.what, Values(t.accepted, e.key))
    {
      assert EmissionOk(t.accepted, e);
    }
  }
}
