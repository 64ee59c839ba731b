/**
 * Jump consistent hashing (`jump_bucketpos`) and the selection of replicas
 * without replacement (the JUMP_FNV1a part of `ch_get_nodes`).
 */
module JumpHash {

  const TWO_64 := 0x1_0000_0000_0000_0000

  type u64 = x: nat | x < TWO_64

  /** The linear congruential generator, on 64-bit words. */
  function NextKey(key: u64): u64 {
    (key * 2862933555777941757 + 1) % TWO_64
  }

  /** Where to jump from bucket `b`: any function that moves forward. */
  type Step = (u64, nat) -> nat

  ghost predicate Advances(step: Step) {
    forall key, b :: step(key, b) > b
  }

  /** The step in exact arithmetic: (b + 1) * 2^31 / ((key >> 33) + 1). */
  function ExactStep(key: u64, b: nat): nat {
    (b + 1) * 0x8000_0000 / (key / 0x2_0000_0000 + 1)
  }

  lemma {:induction false} QuotientAtLeast(a: nat, d: nat, m: nat)
    requires 0 < d <= m
    ensures a * m / d >= a
  {
    var q := a * m / d;
    assert a * d <= a * m;
    assert a * m < d * (q + 1);
    assert d * a < d * (q + 1);
  }

  lemma {:induction false} ExactStepAdvances(key: u64, b: nat)
    ensures ExactStep(key, b) > b
  {
    QuotientAtLeast(b + 1, key / 0x2_0000_0000 + 1, 0x8000_0000);
  }

  /** The loop from a state on: at bucket `b`, about to try `j`. */
  ghost function JumpFrom(step: Step, key: u64, b: int, j: nat, n: nat): int
    requires Advances(step)
    decreases n - j
  {
    if j >= n then b else JumpFrom(step, NextKey(key), j, step(NextKey(key), j), n)
  }

  ghost function Jump(step: Step, key: u64, n: nat): int
    requires Advances(step)
  {
    JumpFrom(step, key, -1, 0, n)
  }

  method JumpBucketPos(step: Step, key0: u64, n: nat) returns (b: nat)
    requires n > 0 && Advances(step)
    ensures b == Jump(step, key0, n) && b < n
  {
    var key, at, j := key0, -1, 0;
    while j < n
      invariant -1 <= at < n && (at == -1 ==> j == 0)
      invariant JumpFrom(step, key, at, j, n) == Jump(step, key0, n)
      decreases n - j
    {
      at := j;
      key := NextKey(key);
      j := step(key, at);
    }
    b := at;
  }

  lemma {:induction false} JumpInRange(step: Step, key: u64, b: int, j: nat, n: nat)
    requires Advances(step) && -1 <= b < n && b < j
    ensures -1 <= JumpFrom(step, key, b, j, n) < n
    ensures JumpFrom(step, key, b, j, n) >= b
    ensures j < n ==> JumpFrom(step, key, b, j, n) >= j
    decreases n - j
  {
    if j < n {
      JumpInRange(step, NextKey(key), j, step(NextKey(key), j), n);
    }
  }

  /** One more bucket either leaves a key where it is or moves it into the new bucket. */
  lemma {:induction false} OneMoreBucket(step: Step, key: u64, b: int, j: nat, n: nat)
    requires Advances(step) && b < j
    ensures JumpFrom(step, key, b, j, n + 1) == JumpFrom(step, key, b, j, n) || JumpFrom(step, key, b, j, n + 1) == n
    decreases n - j
  {
    if j < n {
      OneMoreBucket(step, NextKey(key), j, step(NextKey(key), j), n);
    }
  }

  /** Main result: range and minimal movement, for every key and every number of buckets. */
  lemma {:induction false} JumpIsConsistent(step: Step, key: u64, n: nat)
    requires Advances(step) && n >= 1
    ensures 0 <= Jump(step, key, n) < n
    ensures Jump(step, key, n + 1) == Jump(step, key, n) || Jump(step, key, n + 1) == n
  {
    JumpInRange(step, key, -1, 0, n);
    OneMoreBucket(step, key, -1, 0, n);
  }

  /** Growing by any number of buckets moves a key only into a new one. */
  lemma {:induction false} GrowthOnlyMovesToNew(step: Step, key: u64, n: nat, m: nat)
    requires Advances(step) && 1 <= n <= m
    ensures Jump(step, key, m) == Jump(step, key, n) || n <= Jump(step, key, m) < m
    decreases m - n
  {
    if n < m {
      GrowthOnlyMovesToNew(step, key, n, m - 1);
      JumpIsConsistent(step, key, m - 1);
    }
  }

  // ---------------------------------------------------------------------
  // The hops of a key, whatever the number of buckets
  // ---------------------------------------------------------------------

  /** The generator's word for hop `k`. */
  function Word(key: u64, k: nat): u64 {
    if k == 0 then key else NextKey(Word(key, k - 1))
  }

  /** The buckets a key hops to as their number grows: from 0 on, each hop drawn from the next word. */
  function Hop(step: Step, key: u64, k: nat): nat {
    if k == 0 then 0 else step(Word(key, k), Hop(step, key, k - 1))
  }

  lemma {:induction false} HopsFrom(step: Step, key: u64, k: nat, b: int, n: nat) returns (i: nat)
    requires Advances(step) && Hop(step, key, k) < n
    ensures i >= k && JumpFrom(step, Word(key, k), b, Hop(step, key, k), n) == Hop(step, key, i)
    ensures Hop(step, key, i) < n <= Hop(step, key, i + 1)
    decreases n - Hop(step, key, k)
  {
    var j := Hop(step, key, k);
    assert Word(key, k + 1) == NextKey(Word(key, k)) && Hop(step, key, k + 1) == step(Word(key, k + 1), j) > j;
    if Hop(step, key, k + 1) < n {
      i := HopsFrom(step, key, k + 1, j, n);
    } else {
      i := k;
    }
  }

  /** Main result: a key's bucket among `n` is where its last hop below `n` took it. */
  lemma {:induction false} JumpIsLastHop(step: Step, key: u64, n: nat)
    requires Advances(step) && n >= 1
    ensures exists i: nat :: Jump(step, key, n) == Hop(step, key, i) && Hop(step, key, i) < n <= Hop(step, key, i + 1)
  {
    var i := HopsFrom(step, key, 0, -1, n);
  }

  lemma {:induction false} HopsAscend(step: Step, key: u64, i: nat, j: nat)
    requires Advances(step) && i < j
    ensures Hop(step, key, i) < Hop(step, key, j)
    decreases j
  {
    if i < j - 1 {
      HopsAscend(step, key, i, j - 1);
    }
  }

  /** A key moves to the bucket added last exactly when it hops there. */
  lemma {:induction false} MovesExactlyWhen(step: Step, key: u64, n: nat)
    requires Advances(step)
    ensures Jump(step, key, n + 1) == n <==> exists i: nat :: Hop(step, key, i) == n
  {
    JumpIsLastHop(step, key, n + 1);
    var i: nat :| Jump(step, key, n + 1) == Hop(step, key, i) && Hop(step, key, i) < n + 1 <= Hop(step, key, i + 1);
    if j: nat :| Hop(step, key, j) == n {
      if j < i {
        HopsAscend(step, key, j, i);
      } else if i + 1 < j {
        HopsAscend(step, key, i + 1, j);
      }
    }
  }

  lemma {:induction false} WordIs(key: u64, q: nat, word: u64)
    requires key * 2862933555777941757 + 1 == q * TWO_64 + word
    ensures NextKey(key) == word
  {
  }

  lemma {:induction false} KnownSteps()
    ensures ExactStep(15338245430585482900, 0) == 1 && ExactStep(5933173489119344709, 1) == 6 &&
            ExactStep(8788550385278913586, 6) == 14
  {
  }

  /** A key worked out in exact arithmetic: over the buckets 0, 1 and 6, and then past 11. */
  lemma {:induction false} KnownKey()
    ensures Advances(ExactStep) && Jump(ExactStep, 10863919174838991, 11) == 6
  {
    hide ExactStep, NextKey, JumpFrom;
    forall key, b ensures ExactStep(key, b) > b {
      ExactStepAdvances(key, b);
    }
    WordIs(10863919174838991, 1686079593700968, 15338245430585482900);
    WordIs(15338245430585482900, 2380494755850445087, 5933173489119344709);
    WordIs(5933173489119344709, 920828163841707333, 8788550385278913586);
    KnownSteps();
    OneHop(ExactStep, 10863919174838991, -1, 0, 11);
    OneHop(ExactStep, 15338245430585482900, 0, 1, 11);
    OneHop(ExactStep, 5933173489119344709, 1, 6, 11);
    LastHop(ExactStep, 8788550385278913586, 6, 14, 11);
  }

  lemma {:induction false} OneHop(step: Step, key: u64, b: int, j: nat, n: nat)
    requires Advances(step) && j < n
    ensures JumpFrom(step, key, b, j, n) == JumpFrom(step, NextKey(key), j, step(NextKey(key), j), n)
  {
  }

  lemma {:induction false} LastHop(step: Step, key: u64, b: int, j: nat, n: nat)
    requires Advances(step) && j >= n
    ensures JumpFrom(step, key, b, j, n) == b
  {
  }

  // ---------------------------------------------------------------------
  // Replicas
  // ---------------------------------------------------------------------

  function Xorshift(hash: bv64): bv64 {
    var a := hash ^ (hash >> 12);
    var b := a ^ (a << 25);
    var c := b ^ (b >> 27);
    c * 2685821657736338717
  }

  /** The 16-bit counter of replicas still wanted. */
  function Dec16(pos: nat): nat {
    if pos == 0 then 65535 else pos - 1
  }

  /** How many replicas the loop hands out: asked for none, it runs through all slots. */
  function Wanted(replcnt: nat, n: nat): nat {
    if replcnt == 0 || n < replcnt then n else replcnt
  }

  ghost predicate PairwiseDistinct(s: seq<nat>) {
    forall i, j :: 0 <= i < j < |s| ==> s[i] != s[j]
  }

  /** Selection without replacement, for a hash and the servers left. */
  ghost function Picks<S>(step: Step, hash: bv64, left: seq<S>, k: nat): (r: seq<S>)
    requires Advances(step)
    ensures |r| == if k < |left| then k else |left|
    decreases k
  {
    if k == 0 || left == [] then []
    else
      JumpIsConsistent(step, hash as u64, |left|);
      var j, n := Jump(step, hash as u64, |left|), |left| - 1;
      [left[j]] + Picks(step, Xorshift(hash), left[j := left[n]][..n], k - 1)
  }

  /** Asking for fewer replicas gives the first ones of those for more. */
  lemma {:induction false} FewerPicksAreAPrefix<S>(step: Step, hash: bv64, left: seq<S>, k: nat, l: nat)
    requires Advances(step) && k <= l
    ensures Picks(step, hash, left, k) <= Picks(step, hash, left, l)
    decreases k
  {
    hide Xorshift, JumpFrom;
    if k > 0 && left != [] {
      JumpIsConsistent(step, hash as u64, |left|);
      var j, n := Jump(step, hash as u64, |left|), |left| - 1;
      FewerPicksAreAPrefix(step, Xorshift(hash), left[j := left[n]][..n], k - 1, l - 1);
    }
  }

  /** Different slots stay different, and what is picked is among them. */
  lemma {:induction false} PicksAreDistinct(step: Step, hash: bv64, left: seq<nat>, k: nat)
    requires Advances(step) && PairwiseDistinct(left)
    ensures PairwiseDistinct(Picks<nat>(step, hash, left, k))
    ensures forall x :: x in Picks<nat>(step, hash, left, k) ==> x in left
    decreases k
  {
    hide Xorshift, JumpFrom;
    if k > 0 && left != [] {
      JumpIsConsistent(step, hash as u64, |left|);
      var j, n := Jump(step, hash as u64, |left|), |left| - 1;
      var rest := left[j := left[n]][..n];
      assert forall i :: 0 <= i < n ==> rest[i] == if i == j then left[n] else left[i];
      PicksAreDistinct(step, Xorshift(hash), rest, k - 1);
      assert left[j] !in rest;
    }
  }

  /** Picking from servers is picking their slots. */
  lemma {:induction false} PicksOfSlots<S>(step: Step, hash: bv64, ring: seq<S>, slots: seq<nat>, left: seq<S>, k: nat)
    requires Advances(step) && |slots| == |left|
    requires forall i :: 0 <= i < |slots| ==> slots[i] < |ring| && left[i] == ring[slots[i]]
    ensures var r, t := Picks(step, hash, left, k), Picks<nat>(step, hash, slots, k);
            |r| == |t| && forall i :: 0 <= i < |t| ==> 0 <= t[i] < |ring| && r[i] == ring[t[i]]
    decreases k
  {
    hide Xorshift, JumpFrom;
    if k > 0 && left != [] {
      JumpIsConsistent(step, hash as u64, |left|);
      var j, n := Jump(step, hash as u64, |left|), |left| - 1;
      PicksOfSlots(step, Xorshift(hash), ring, slots[j := slots[n]][..n], left[j := left[n]][..n], k - 1);
    }
  }

  /** Selection without replacement: the chosen slot is filled with the last one. */
  method SelectReplicas<S>(step: Step, hash0: bv64, ring: seq<S>, replcnt: nat) returns (ret: seq<S>)
    requires Advances(step) && |ring| < 65535 && replcnt < 65536
    ensures |ret| == Wanted(replcnt, |ring|)
    ensures ret == Picks(step, hash0, ring, Wanted(replcnt, |ring|))
    ensures ret != [] ==> var b := Jump(step, hash0 as u64, |ring|); 0 <= b < |ring| && ret[0] == ring[b]
    ensures exists slots: seq<nat> :: SlotsFor(ring, ret, slots)
  {
    hide Xorshift, JumpFrom, Picks, SlotsFor;
    ReplicasAreDistinct(step, hash0, ring, Wanted(replcnt, |ring|));
    var bcklst := ring;
    var hash, pos, i := hash0, replcnt, |ring|;
    ret := [];
    ghost var goal := Picks(step, hash0, ring, Wanted(replcnt, |ring|));
    assert ring[..|ring|] == ring && [] + goal == goal;
    while i > 0
      invariant |bcklst| == |ring| && i <= |ring|
      invariant |ret| == |ring| - i <= |goal|
      invariant pos == if replcnt == 0 && |ret| > 0 then 65536 - |ret| else replcnt - |ret|
      invariant 0 < |ret| < |ring| ==> pos > 0
      invariant goal == ret + Picks(step, hash, bcklst[..i], |goal| - |ret|)
      decreases i
    {
      var j := JumpBucketPos(step, hash as u64, i);
      OnePick(step, hash, bcklst, i, |goal| - |ret|, ret);
      ret := ret + [bcklst[j]];
      i := i - 1;
      pos := Dec16(pos);
      if pos == 0 {
        break;
      }
      hash := Xorshift(hash);
      bcklst := bcklst[j := bcklst[i]];
    }
  }

  /**
   * Main result: a key's replicas are servers in different slots of the ring,
   * the first of them the key's own.
   */
  lemma {:induction false} ReplicasAreDistinct<S>(step: Step, hash: bv64, ring: seq<S>, k: nat)
    requires Advances(step)
    ensures exists slots: seq<nat> :: SlotsFor(ring, Picks(step, hash, ring, k), slots)
    ensures k > 0 && ring != [] ==>
              var b := Jump(step, hash as u64, |ring|); 0 <= b < |ring| && Picks(step, hash, ring, k)[0] == ring[b]
  {
    hide Xorshift, JumpFrom;
    var all: seq<nat> := seq(|ring|, i requires 0 <= i < |ring| => i);
    PicksAreDistinct(step, hash, all, k);
    PicksOfSlots(step, hash, ring, all, ring, k);
    var slots: seq<nat> := Picks<nat>(step, hash, all, k);
    assert SlotsFor(ring, Picks(step, hash, ring, k), slots);
    if ring != [] {
      JumpIsConsistent(step, hash as u64, |ring|);
    }
  }

  ghost predicate SlotsFor<S>(ring: seq<S>, picks: seq<S>, slots: seq<nat>) {
    && |slots| == |picks| && PairwiseDistinct(slots)
    && forall i :: 0 <= i < |slots| ==> slots[i] < |ring| && picks[i] == ring[slots[i]]
  }

  lemma {:induction false} OnePick<S>(step: Step, hash: bv64, list: seq<S>, i: nat, k: nat, done: seq<S>)
    requires Advances(step) && 0 < i <= |list| && k > 0
    ensures var j := Jump(step, hash as u64, i);
            && 0 <= j < i
            && done + Picks(step, hash, list[..i], k) ==
               done + [list[j]] + Picks(step, Xorshift(hash), list[j := list[i - 1]][..i - 1], k - 1)
  {
    hide Xorshift, JumpFrom;
    JumpIsConsistent(step, hash as u64, i);
    var j := Jump(step, hash as u64, i);
    var left := list[..i];
    assert left[j := left[i - 1]][..i - 1] == list[j := list[i - 1]][..i - 1];
  }
}
