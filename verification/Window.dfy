/**
 * The sliding window of an aggregation (`aggregator.c`): time buckets of one
 * output name, with the put, expire and rotate operations, on `real` values.
 */
module Windows {
  import opened Common

  /** The aggregator's settings, as `aggregator_new` accepts them. */
  datatype Config = Config(interval: nat, expire: nat) {
    predicate Valid() {
      0 < interval < expire && expire + interval <= 65536 && BucketCount() <= 255
    }

    /** Room for the past, the present and one rotation in advance. */
    function BucketCount(): nat
      requires interval > 0
    {
      (expire + (interval - 1)) / interval + 1 + 1
    }
  }

  datatype Bucket = Bucket(expired: bool, start: int, cnt: nat, sum: real, max: real, min: real)

  /** An aggregate as it is written out for one bucket. */
  datatype Written = Written(start: int, cnt: nat, sum: real, max: real, min: real)

  function Write(b: Bucket): Written {
    Written(b.start, b.cnt, b.sum, b.max, b.min)
  }

  // ---------------------------------------------------------------------
  // Multiples of the interval
  // ---------------------------------------------------------------------

  function Times(q: int, m: int): int { q * m }

  lemma {:induction false} TimesStep(q: int, m: int)
    ensures Times(q + 1, m) == Times(q, m) + m && Times(0, m) == 0
  {
  }

  lemma {:induction false} TimesMonotone(i: int, j: int, m: int)
    requires i <= j && m >= 0
    ensures Times(i, m) <= Times(j, m)
  {
    assert (j - i) * m >= 0;
  }

  lemma {:induction false} TimesDiv(a: int, m: int)
    requires m > 0
    ensures a == Times(a / m, m) + a % m && 0 <= a % m < m
  {
  }

  /** Division with remainder has one solution. */
  lemma {:induction false} DivUnique(a: int, q: int, r: int, m: int)
    requires m > 0 && a == Times(q, m) + r && 0 <= r < m
    ensures a / m == q && a % m == r
  {
    hide Times;
    TimesDiv(a, m);
    TimesStep(a / m, m);
    TimesStep(q, m);
    if a / m < q {
      TimesMonotone(a / m + 1, q, m);
    } else if q < a / m {
      TimesMonotone(q + 1, a / m, m);
    }
  }

  // ---------------------------------------------------------------------
  // The shape of a window
  // ---------------------------------------------------------------------

  /** Contiguous buckets that start at multiples of the interval. */
  ghost predicate Aligned(bs: seq<Bucket>, interval: nat) {
    && interval > 0 && bs != [] && bs[0].start % interval == 0
    && forall i :: 0 <= i < |bs| ==> bs[i].start == bs[0].start + Times(i, interval)
  }

  /** Expired buckets form a prefix that leaves out the last bucket. */
  ghost predicate ExpiredInFront(bs: seq<Bucket>) {
    && bs != [] && !bs[|bs| - 1].expired
    && forall i, j :: 0 <= i < j < |bs| && bs[j].expired ==> bs[i].expired
  }

  ghost predicate IsWindow(cfg: Config, bs: seq<Bucket>) {
    cfg.Valid() && |bs| == cfg.BucketCount() && Aligned(bs, cfg.interval) && ExpiredInFront(bs)
  }

  function Last(bs: seq<Bucket>): int
    requires bs != []
  {
    bs[|bs| - 1].start
  }

  /** From the first to the last bucket it is at least `expire + interval`. */
  lemma {:induction false} WindowLength(cfg: Config)
    requires cfg.Valid()
    ensures cfg.BucketCount() >= 3
    ensures Times(cfg.BucketCount() - 1, cfg.interval) >= cfg.expire + cfg.interval
  {
    hide Times;
    var n := cfg.expire + (cfg.interval - 1);
    var q := n / cfg.interval;
    TimesDiv(n, cfg.interval);
    TimesStep(q, cfg.interval);
    TimesStep(0, cfg.interval);
    if q < 1 {
      TimesMonotone(q, 0, cfg.interval);
    }
  }

  // ---------------------------------------------------------------------
  // A new window
  // ---------------------------------------------------------------------

  /** The first interval boundary at or before `now - expire`. */
  function Base(cfg: Config, now: nat): int
    requires cfg.Valid() && now >= cfg.expire
  {
    Times((now - cfg.expire) / cfg.interval, cfg.interval)
  }

  function NewBuckets(cfg: Config, now: nat): (bs: seq<Bucket>)
    requires cfg.Valid() && now >= cfg.expire
    ensures |bs| == cfg.BucketCount()
  {
    seq(cfg.BucketCount(), i requires 0 <= i < cfg.BucketCount() =>
        Bucket(false, Base(cfg, now) + Times(i, cfg.interval), 0, 0.0, 0.0, 0.0))
  }

  lemma {:induction false} NewIsWindow(cfg: Config, now: nat)
    requires cfg.Valid() && now >= cfg.expire
    ensures IsWindow(cfg, NewBuckets(cfg, now))
    ensures Last(NewBuckets(cfg, now)) > now
  {
    hide Times;
    WindowLength(cfg);
    TimesStep(0, cfg.interval);
    var q := (now - cfg.expire) / cfg.interval;
    TimesDiv(now - cfg.expire, cfg.interval);
    DivUnique(Base(cfg, now), q, 0, cfg.interval);
  }

  // ---------------------------------------------------------------------
  // Putting a sample
  // ---------------------------------------------------------------------

  /** The bucket for an epoch; none when it is too old, too new or already expired. */
  function BucketFor(cfg: Config, bs: seq<Bucket>, epoch: int): (k: Option<nat>)
    requires cfg.interval > 0 && bs != []
  {
    var itime := epoch - bs[0].start;
    if itime < 0 || itime >= Times(|bs|, cfg.interval) then None
    else
      IndexInRange(itime, |bs|, cfg.interval);
      if bs[itime / cfg.interval].expired then None else Some(itime / cfg.interval)
  }

  lemma {:induction false} IndexInRange(t: int, n: int, m: int)
    requires m > 0 && 0 <= t < Times(n, m)
    ensures 0 <= t / m < n
  {
    hide Times;
    TimesDiv(t, m);
    if t / m >= n {
      TimesMonotone(n, t / m, m);
    }
  }

  function AddSample(b: Bucket, val: real): Bucket {
    if b.cnt == 0 then b.(cnt := 1, sum := val, max := val, min := val)
    else b.(cnt := b.cnt + 1, sum := b.sum + val,
            max := if b.max < val then val else b.max,
            min := if b.min > val then val else b.min)
  }

  predicate Contains(cfg: Config, b: Bucket, epoch: int) {
    b.start <= epoch < b.start + cfg.interval
  }

  /** In a window, an epoch lies in bucket `i` exactly when `i` is the quotient. */
  lemma {:induction false} ContainsIsQuotient(cfg: Config, bs: seq<Bucket>, epoch: int, i: nat)
    requires Aligned(bs, cfg.interval) && i < |bs|
    ensures Contains(cfg, bs[i], epoch) <==> (epoch - bs[0].start) / cfg.interval == i
  {
    hide Times;
    var t := epoch - bs[0].start;
    TimesDiv(t, cfg.interval);
    if Contains(cfg, bs[i], epoch) {
      DivUnique(t, i, t - Times(i, cfg.interval), cfg.interval);
    }
  }

  /** The bucket found is the open one whose interval contains the epoch, if there is one. */
  lemma {:induction false} BucketContainsEpoch(cfg: Config, bs: seq<Bucket>, epoch: int)
    requires IsWindow(cfg, bs)
    ensures var k := BucketFor(cfg, bs, epoch);
            && (k.Some? ==> k.value < |bs| && !bs[k.value].expired && Contains(cfg, bs[k.value], epoch))
            && (k.None? ==> forall i :: 0 <= i < |bs| && !bs[i].expired ==> !Contains(cfg, bs[i], epoch))
  {
    hide Times, ExpiredInFront;
    var t := epoch - bs[0].start;
    forall i | 0 <= i < |bs| ensures Contains(cfg, bs[i], epoch) <==> t / cfg.interval == i {
      ContainsIsQuotient(cfg, bs, epoch, i);
    }
    TimesDiv(t, cfg.interval);
    TimesStep(0, cfg.interval);
    TimesStep(t / cfg.interval, cfg.interval);
    if 0 <= t / cfg.interval < |bs| {
      TimesMonotone(0, t / cfg.interval, cfg.interval);
      TimesMonotone(t / cfg.interval + 1, |bs|, cfg.interval);
    }
    if 0 <= t < Times(|bs|, cfg.interval) {
      IndexInRange(t, |bs|, cfg.interval);
    }
  }

  // ---------------------------------------------------------------------
  // Expiring: mark and emit
  // ---------------------------------------------------------------------

  /** How far the expiry scan runs, from bucket `i` on. */
  function DueFrom(bs: seq<Bucket>, exp: nat, now: int, i: nat): (k: nat)
    requires i <= |bs|
    ensures i <= k <= |bs|
    ensures forall j :: i <= j < k ==> bs[j].start + exp < now
    ensures k < |bs| ==> bs[k].start + exp >= now
    decreases |bs| - i
  {
    if i < |bs| && bs[i].start + exp < now then DueFrom(bs, exp, now, i + 1) else i
  }

  function Due(bs: seq<Bucket>, exp: nat, now: int): (k: nat)
    ensures k <= |bs|
  {
    DueFrom(bs, exp, now, 0)
  }

  function Marked(bs: seq<Bucket>, k: nat): (r: seq<Bucket>)
    requires k <= |bs|
    ensures |r| == |bs|
  {
    seq(|bs|, i requires 0 <= i < |bs| => if i < k then bs[i].(expired := true) else bs[i])
  }

  /** What is written for the first `k` buckets: the open ones that hold samples. */
  function Emits(bs: seq<Bucket>, k: nat): seq<Written>
    requires k <= |bs|
  {
    if k == 0 then []
    else Emits(bs, k - 1) + if !bs[k - 1].expired && bs[k - 1].cnt > 0 then [Write(bs[k - 1])] else []
  }

  function MarkAt(bs: seq<Bucket>, i: nat): (r: seq<Bucket>)
    requires i < |bs|
    ensures |r| == |bs|
  {
    bs[i := bs[i].(expired := true)]
  }

  ghost predicate ExpiredUpTo(bs: seq<Bucket>, i: nat) {
    i <= |bs| && forall j :: 0 <= j < i ==> bs[j].expired
  }

  /** One step of the scan: the next bucket is still inside the array, and the window stays one. */
  lemma {:induction false} MarkStep(cfg: Config, bs: seq<Bucket>, i: nat, exp: nat, now: int)
    requires IsWindow(cfg, bs) && i < |bs| && ExpiredUpTo(bs, i)
    requires bs[i].start + exp < now <= Last(bs) + exp
    ensures i + 1 < |bs| && ExpiredUpTo(MarkAt(bs, i), i + 1)
    ensures IsWindow(cfg, MarkAt(bs, i)) && Last(MarkAt(bs, i)) == Last(bs)
  {
    hide Times, Config.BucketCount;
  }

  /** Where the scan stops, nothing that is open is past its expiry. */
  lemma {:induction false} ScanDone(cfg: Config, bs: seq<Bucket>, i: nat, exp: nat, now: int)
    requires IsWindow(cfg, bs) && i < |bs| && ExpiredUpTo(bs, i) && bs[i].start + exp >= now
    ensures NoneDue(bs, exp, now)
  {
    hide Times, Config.BucketCount;
    forall j | i <= j < |bs| ensures bs[j].start >= bs[i].start {
      TimesMonotone(i, j, cfg.interval);
    }
  }

  /** No open bucket is past its expiry. */
  ghost predicate NoneDue(bs: seq<Bucket>, exp: nat, now: int) {
    forall i :: 0 <= i < |bs| && !bs[i].expired ==> bs[i].start + exp >= now
  }

  // ---------------------------------------------------------------------
  // Rotating
  // ---------------------------------------------------------------------

  /** The first bucket goes to the end, emptied and re-opened. */
  function RotateOne(bs: seq<Bucket>, interval: nat): (r: seq<Bucket>)
    requires bs != []
    ensures |r| == |bs|
  {
    bs[1..] + [bs[|bs| - 1].(expired := false, cnt := 0, start := Last(bs) + interval)]
  }

  function ExpiredCount(bs: seq<Bucket>): nat {
    if bs == [] then 0 else (if bs[0].expired then 1 else 0) + ExpiredCount(bs[1..])
  }

  lemma {:induction false} ExpiredCountAppend(bs: seq<Bucket>, b: Bucket)
    ensures ExpiredCount(bs + [b]) == ExpiredCount(bs) + if b.expired then 1 else 0
    decreases |bs|
  {
    if bs == [] {
      assert ([b])[1..] == [];
    } else {
      assert (bs + [b])[1..] == bs[1..] + [b];
      ExpiredCountAppend(bs[1..], b);
    }
  }

  lemma {:induction false} RotationProgress(bs: seq<Bucket>, interval: nat)
    requires bs != [] && bs[0].expired
    ensures ExpiredCount(RotateOne(bs, interval)) == ExpiredCount(bs) - 1
  {
    ExpiredCountAppend(bs[1..], RotateOne(bs, interval)[|bs| - 1]);
  }

  /** The loop: rotate while the first bucket is expired. */
  function Rotated(bs: seq<Bucket>, interval: nat): (r: seq<Bucket>)
    requires bs != []
    ensures |r| == |bs| && !r[0].expired
    decreases ExpiredCount(bs)
  {
    if bs[0].expired then
      RotationProgress(bs, interval);
      Rotated(RotateOne(bs, interval), interval)
    else bs
  }

  lemma {:induction false} RotateOneKeepsWindow(cfg: Config, bs: seq<Bucket>)
    requires IsWindow(cfg, bs) && bs[0].expired
    ensures IsWindow(cfg, RotateOne(bs, cfg.interval))
    ensures Last(RotateOne(bs, cfg.interval)) == Last(bs) + cfg.interval
  {
    hide Times, Config.BucketCount;
    var r, m := RotateOne(bs, cfg.interval), cfg.interval;
    TimesStep(0, m);
    TimesDiv(bs[0].start, m);
    TimesStep(bs[0].start / m, m);
    assert |bs| > 1;
    DivUnique(r[0].start, bs[0].start / m + 1, 0, m);
    forall i | 0 <= i < |r| ensures r[i].start == r[0].start + Times(i, m) {
      TimesStep(i, m);
      assert i < |bs| - 1 ==> r[i] == bs[i + 1];
      TimesStep(|bs| - 1, m);
    }
  }

  /**
   * Main result, shape: the rotated window is a window whose last bucket is far
   * enough in the future for another pass within `expire` seconds.
   */
  lemma {:induction false} RotateKeepsWindow(cfg: Config, bs: seq<Bucket>, exp: nat, now: int)
    requires IsWindow(cfg, bs) && NoneDue(bs, exp, now)
    ensures IsWindow(cfg, Rotated(bs, cfg.interval))
    ensures Last(Rotated(bs, cfg.interval)) >= Last(bs)
    ensures Last(Rotated(bs, cfg.interval)) + exp >= now + cfg.expire + cfg.interval
    decreases ExpiredCount(bs)
  {
    hide Times, Config.BucketCount;
    if bs[0].expired {
      RotationProgress(bs, cfg.interval);
      RotateOneKeepsWindow(cfg, bs);
      var r := RotateOne(bs, cfg.interval);
      assert forall i :: 0 <= i < |r| ==>
               (if i < |bs| - 1 then r[i] == bs[i + 1] else r[i].start == Last(bs) + cfg.interval);
      RotateKeepsWindow(cfg, r, exp, now);
    } else {
      WindowLength(cfg);
    }
  }

  // ---------------------------------------------------------------------
  // The window object: the loops of the source
  // ---------------------------------------------------------------------

  class Window {
    const cfg: Config
    const expire: nat
    const buckets: array<Bucket>

    ghost predicate Valid()
      reads this, buckets
    {
      IsWindow(cfg, buckets[..])
    }

    constructor (cfg: Config, now: nat, splay: nat)
      requires cfg.Valid() && now >= cfg.expire && splay < cfg.interval
      ensures Valid() && buckets[..] == NewBuckets(cfg, now)
      ensures this.cfg == cfg && expire == cfg.expire + splay < 65536 && fresh(buckets)
    {
      this.cfg := cfg;
      expire := cfg.expire + splay;
      var base := Base(cfg, now);
      buckets := new Bucket[cfg.BucketCount()](i => Bucket(false, base + Times(i, cfg.interval), 0, 0.0, 0.0, 0.0));
      new;
      assert buckets[..] == NewBuckets(cfg, now);
      NewIsWindow(cfg, now);
    }

    /** Folds a sample into its bucket, or drops it. */
    method Put(epoch: int, val: real) returns (accepted: bool)
      requires Valid()
      modifies buckets
      ensures Valid()
      ensures var k := BucketFor(cfg, old(buckets[..]), epoch);
              && accepted == k.Some?
              && buckets[..] == if k.Some? then old(buckets[..])[k.value := AddSample(old(buckets[k.value]), val)]
                                else old(buckets[..])
    {
      var k := BucketFor(cfg, buckets[..], epoch);
      BucketContainsEpoch(cfg, buckets[..], epoch);
      accepted := k.Some?;
      if accepted {
        buckets[k.value] := AddSample(buckets[k.value], val);
      }
    }

    /** Marks and writes out every bucket that is past its expiry. */
    method Expire(now: int) returns (out: seq<Written>)
      requires Valid() && Last(buckets[..]) + expire >= now
      modifies buckets
      ensures Valid() && NoneDue(buckets[..], expire, now)
      ensures var k := Due(old(buckets[..]), expire, now);
              buckets[..] == Marked(old(buckets[..]), k) && out == Emits(old(buckets[..]), k)
    {
      hide Times, Config.BucketCount, Aligned, Config.Valid, NoneDue;
      ghost var was := buckets[..];
      out := [];
      var i := 0;
      while buckets[i].start + expire < now
        invariant 0 <= i < buckets.Length && DueFrom(was, expire, now, i) == Due(was, expire, now)
        invariant buckets[..] == Marked(was, i) && out == Emits(was, i)
        invariant IsWindow(cfg, buckets[..]) && Last(buckets[..]) == Last(was) && ExpiredUpTo(buckets[..], i)
        decreases buckets.Length - i
      {
        MarkStep(cfg, buckets[..], i, expire, now);
        ghost var marked := MarkAt(buckets[..], i);
        if !buckets[i].expired {
          if buckets[i].cnt > 0 {
            out := out + [Write(buckets[i])];
          }
          buckets[i] := buckets[i].(expired := true);
        }
        assert buckets[..] == marked;
        i := i + 1;
      }
      ScanDone(cfg, buckets[..], i, expire, now);
    }

    /** Moves expired buckets to the end, one `memmove` each. */
    method Rotate()
      requires Valid()
      modifies buckets
      ensures Valid() && buckets[..] == Rotated(old(buckets[..]), cfg.interval)
    {
      ghost var was := buckets[..];
      var n := buckets.Length;
      while buckets[0].expired
        invariant Valid() && Rotated(buckets[..], cfg.interval) == Rotated(was, cfg.interval)
        decreases ExpiredCount(buckets[..])
      {
        ghost var now := buckets[..];
        RotationProgress(now, cfg.interval);
        RotateOneKeepsWindow(cfg, now);
        forall i | 0 <= i < n - 1 {
          buckets[i] := buckets[i + 1];
        }
        buckets[n - 1] := buckets[n - 1].(expired := false, cnt := 0, start := buckets[n - 2].start + cfg.interval);
        assert buckets[..] == RotateOne(now, cfg.interval);
      }
    }

    /** Is there no bucket with samples left? */
    method IsEmpty() returns (empty: bool)
      requires Valid()
      ensures empty <==> forall i :: 0 <= i < buckets.Length ==> buckets[i].cnt == 0
    {
      var j := 0;
      while j < buckets.Length
        invariant 0 <= j <= buckets.Length && forall i :: 0 <= i < j ==> buckets[i].cnt == 0
      {
        if buckets[j].cnt != 0 {
          return false;
        }
        j := j + 1;
      }
      return true;
    }
  }
}
