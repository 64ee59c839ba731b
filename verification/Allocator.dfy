/**
 * The region allocator (`allocator.c`): a chain of regions with a bump pointer
 * each.  A pointer is a region and an offset; region memory from `malloc` is
 * word-aligned and disjoint from all other regions.
 */
module Allocator {
  import opened Common

  const WORD := 8
  const SIZE_T := 0x1_0000_0000_0000_0000
  const REGION := 262144

  /** `next` is the offset of the first free byte. */
  datatype Region = Region(size: nat, next: nat)

  datatype Block = Block(region: nat, off: nat, len: nat)

  /** Rounding to the word size, on `size_t`. */
  function RoundUp(sz: nat): nat {
    WholeWords(sz) % SIZE_T
  }

  function WholeWords(sz: nat): nat {
    if sz % WORD != 0 then sz + (WORD - sz % WORD) else sz
  }

  lemma {:induction false} WholeWordsFit(sz: nat, room: nat)
    requires room % WORD == 0 && sz <= room
    ensures sz <= WholeWords(sz) <= room && WholeWords(sz) % WORD == 0
  {
    var q, r := sz / WORD, sz % WORD;
    assert sz == WORD * q + r;
    if r != 0 {
      assert WholeWords(sz) == WORD * (q + 1) && room == WORD * (room / WORD);
    }
  }

  lemma {:induction false} WordSum(a: nat, b: nat)
    requires a % WORD == 0 && b % WORD == 0
    ensures (a + b) % WORD == 0 && (a >= b ==> (a - b) % WORD == 0)
  {
  }

  /** The size of a region made for a request of `sz` bytes, on `size_t`. */
  function RegionSize(sz: nat): nat {
    if sz > REGION then ((sz / 1024 + 1) * 1024) % SIZE_T else REGION
  }

  predicate Fits(r: Region, sz: nat) {
    r.size - r.next >= sz
  }

  /** The size computation wraps around for the last 1024 request sizes, and only there. */
  lemma {:induction false} FreshRegionFits(sz: nat)
    requires sz < SIZE_T
    ensures Fits(Region(RegionSize(sz), 0), sz) <==> sz < SIZE_T - 1024
  {
    if sz > REGION {
      assert sz / 1024 * 1024 <= sz < (sz / 1024 + 1) * 1024;
      if sz < SIZE_T - 1024 {
        assert sz / 1024 <= SIZE_T / 1024 - 2;
        assert (sz / 1024 + 1) * 1024 < SIZE_T;
      } else {
        assert sz / 1024 == SIZE_T / 1024 - 1;
        assert (sz / 1024 + 1) * 1024 == SIZE_T;
      }
    }
  }

  /** Regions have the default size unless a request is larger, and then the next multiple of 1024 above it. */
  lemma {:induction false} RegionSizeIs(sz: nat)
    requires sz < SIZE_T - 1024
    ensures sz <= REGION ==> RegionSize(sz) == REGION
    ensures sz > REGION ==> RegionSize(sz) % 1024 == 0 && sz < RegionSize(sz) <= sz + 1024
  {
    var q := sz / 1024;
    assert q * 1024 <= sz < (q + 1) * 1024;
    assert (q + 1) * 1024 < SIZE_T;
  }

  predicate GoodRegion(r: Region) {
    r.size % WORD == 0 && r.next % WORD == 0 && r.next <= r.size < SIZE_T
  }

  ghost predicate GoodRegions(rs: seq<Region>) {
    forall k :: 0 <= k < |rs| ==> GoodRegion(rs[k])
  }

  lemma {:induction false} FreshRegionIsGood(sz: nat)
    ensures GoodRegion(Region(RegionSize(sz), 0))
  {
    if sz > REGION {
      var a := sz / 1024 + 1;
      assert (a * 1024) % SIZE_T == (a % (SIZE_T / 1024)) * 1024;
    }
  }

  /** The fit test sees the unrounded size, yet the rounded one fits too. */
  lemma {:induction false} RoundedFits(r: Region, sz: nat)
    requires GoodRegion(r) && Fits(r, sz)
    ensures sz <= RoundUp(sz) && RoundUp(sz) % WORD == 0
    ensures GoodRegion(r.(next := r.next + RoundUp(sz)))
  {
    hide WholeWords;
    WordSum(r.size, r.next);
    WholeWordsFit(sz, r.size - r.next);
    assert WholeWords(sz) < SIZE_T;
    WordSum(r.next, WholeWords(sz));
  }

  // ---------------------------------------------------------------------
  // One request, as a function of the chain
  // ---------------------------------------------------------------------

  /** The first region with room, from `k` on. */
  function FirstFit(rs: seq<Region>, sz: nat, k: nat): (r: nat)
    requires k <= |rs|
    ensures k <= r <= |rs|
    ensures r < |rs| ==> Fits(rs[r], sz)
    ensures forall i :: k <= i < r ==> !Fits(rs[i], sz)
    decreases |rs| - k
  {
    if k == |rs| || Fits(rs[k], sz) then k else FirstFit(rs, sz, k + 1)
  }

  /** The chain the request is served from: with one more region when none has room. */
  function Extended(rs: seq<Region>, sz: nat, mallocs: bool): seq<Region> {
    if FirstFit(rs, sz, 0) == |rs| && mallocs then rs + [Region(RegionSize(sz), 0)] else rs
  }

  function Served(rs: seq<Region>, sz: nat, mallocs: bool): (seq<Region>, Option<Block>) {
    var rs' := Extended(rs, sz, mallocs);
    var k := FirstFit(rs', sz, 0);
    if k == |rs'| then (rs', None)
    else (rs'[k := rs'[k].(next := rs'[k].next + RoundUp(sz))], Some(Block(k, rs'[k].next, sz)))
  }

  class RegionChain {
    var regions: seq<Region>

    ghost predicate Valid()
      reads this
    {
      regions != [] && GoodRegions(regions)
    }

    constructor ()
      ensures Valid() && regions == [Region(REGION, 0)]
    {
      regions := [Region(RegionSize(0), 0)];
    }

    /** Walks the chain, appending a region at its end when `malloc` provides one. */
    method Malloc(sz: nat, mallocs: bool) returns (p: Option<Block>)
      requires Valid() && sz < SIZE_T - 1024
      modifies this
      ensures Valid()
      ensures (regions, p) == Served(old(regions), sz, mallocs)
      ensures mallocs ==> p.Some?
    {
      var k := 0;
      ghost var start := regions;
      FreshRegionFits(sz);
      FreshRegionIsGood(sz);
      while k < |regions|
        invariant 0 <= k <= |regions| && Valid()
        invariant regions == start || (regions == Extended(start, sz, mallocs) && mallocs && k == |start|)
        invariant FirstFit(regions, sz, 0) == FirstFit(regions, sz, k)
        invariant k == |regions| ==> !mallocs
        decreases |start| + 1 - k
      {
        if Fits(regions[k], sz) {
          RoundedFits(regions[k], sz);
          p := Some(Block(k, regions[k].next, sz));
          regions := regions[k := regions[k].(next := regions[k].next + RoundUp(sz))];
          return;
        }
        if k == |regions| - 1 {
          if !mallocs {
            return None;
          }
          regions := regions + [Region(RegionSize(sz), 0)];
          LongerChain(start, sz, Region(RegionSize(sz), 0));
        }
        k := k + 1;
      }
      p := None;
    }
  }

  lemma {:induction false} LongerChain(rs: seq<Region>, sz: nat, r: Region)
    requires FirstFit(rs, sz, 0) == |rs|
    ensures FirstFit(rs + [r], sz, 0) == FirstFit(rs + [r], sz, |rs|)
  {
    assert forall i :: 0 <= i < |rs| ==> (rs + [r])[i] == rs[i];
  }

  // ---------------------------------------------------------------------
  // Whole runs
  // ---------------------------------------------------------------------

  /** A request: its size, and whether `malloc` would provide a new region for it. */
  datatype Request = Request(sz: nat, mallocs: bool)

  /** The chain and the blocks handed out after a run, starting from a new chain. */
  function After(run: seq<Request>): (seq<Region>, seq<Block>)
    decreases |run|
  {
    if run == [] then ([Region(REGION, 0)], [])
    else
      var (rs, bs) := After(run[..|run| - 1]);
      var last := run[|run| - 1];
      var (rs', p) := Served(rs, last.sz, last.mallocs);
      (rs', if p.Some? then bs + [p.value] else bs)
  }

  /** The block lies below its region's bump pointer, at a word boundary. */
  ghost predicate Placed(rs: seq<Region>, b: Block) {
    && b.region < |rs| && b.off % WORD == 0
    && b.len <= RoundUp(b.len) && b.off + RoundUp(b.len) <= rs[b.region].next <= rs[b.region].size
  }

  predicate Disjoint(a: Block, b: Block) {
    a.region != b.region || a.off + a.len <= b.off || b.off + b.len <= a.off
  }

  ghost predicate Safe(rs: seq<Region>, bs: seq<Block>) {
    && GoodRegions(rs)
    && (forall i :: 0 <= i < |bs| ==> Placed(rs, bs[i]))
    && (forall i, j :: 0 <= i < j < |bs| ==> Disjoint(bs[i], bs[j]))
  }

  lemma {:induction false} ServedKeepsSafe(rs: seq<Region>, bs: seq<Block>, sz: nat, mallocs: bool)
    requires Safe(rs, bs)
    ensures var (rs', p) := Served(rs, sz, mallocs);
            Safe(rs', if p.Some? then bs + [p.value] else bs)
  {
    var mid := Extended(rs, sz, mallocs);
    FreshRegionIsGood(sz);
    assert Safe(mid, bs);
    var k := FirstFit(mid, sz, 0);
    if k < |mid| {
      RoundedFits(mid[k], sz);
      BumpKeepsSafe(mid, bs, k, sz);
    }
  }

  lemma {:induction false} BumpKeepsSafe(rs: seq<Region>, bs: seq<Block>, k: nat, sz: nat)
    requires Safe(rs, bs) && k < |rs|
    requires sz <= RoundUp(sz) && GoodRegion(rs[k].(next := rs[k].next + RoundUp(sz)))
    ensures Safe(rs[k := rs[k].(next := rs[k].next + RoundUp(sz))], bs + [Block(k, rs[k].next, sz)])
  {
    var rs' := rs[k := rs[k].(next := rs[k].next + RoundUp(sz))];
    var b := Block(k, rs[k].next, sz);
    assert Placed(rs', b);
    forall i | 0 <= i < |bs| ensures Placed(rs', bs[i]) && Disjoint(bs[i], b) {
      assert Placed(rs, bs[i]);
    }
  }

  /** Main result: in every run, blocks are aligned, inside their region and pairwise disjoint. */
  lemma {:induction false} BlocksAreSafe(run: seq<Request>)
    ensures Safe(After(run).0, After(run).1)
    decreases |run|
  {
    if run != [] {
      var (rs, bs) := After(run[..|run| - 1]);
      var last := run[|run| - 1];
      BlocksAreSafe(run[..|run| - 1]);
      ServedKeepsSafe(rs, bs, last.sz, last.mallocs);
    }
  }

  /**
   * There is no block exactly when the chain has no room and `malloc` fails or
   * the region size wraps; in the latter case the source goes on appending
   * empty regions.
   */
  lemma {:induction false} NoBlockExactlyWhen(rs: seq<Region>, sz: nat, mallocs: bool)
    requires sz < SIZE_T
    ensures Served(rs, sz, mallocs).1.None? <==>
            (forall i :: 0 <= i < |rs| ==> !Fits(rs[i], sz)) && (!mallocs || sz >= SIZE_T - 1024)
  {
    FreshRegionFits(sz);
    if FirstFit(rs, sz, 0) == |rs| && mallocs {
      LongerChain(rs, sz, Region(RegionSize(sz), 0));
    }
  }

  /** The regions the walk appends before its `n + 1`st look behind the chain. */
  function Walked(rs: seq<Region>, sz: nat, n: nat): seq<Region> {
    if n == 0 then rs else Walked(rs, sz, n - 1) + [Region(RegionSize(sz), 0)]
  }

  /**
   * On a chain without room the walk goes on for ever exactly for the sizes
   * that wrap around: however many regions it has appended, none has room.
   */
  lemma {:induction false} WalkIsEndlessExactlyWhen(rs: seq<Region>, sz: nat)
    requires sz < SIZE_T && FirstFit(rs, sz, 0) == |rs|
    ensures (forall n: nat :: FirstFit(Walked(rs, sz, n), sz, 0) == |Walked(rs, sz, n)|) <==> sz >= SIZE_T - 1024
  {
    hide RegionSize, FirstFit, Walked;
    FreshRegionFits(sz);
    if sz >= SIZE_T - 1024 {
      forall n: nat ensures FirstFit(Walked(rs, sz, n), sz, 0) == |Walked(rs, sz, n)| {
        NoneHasRoom(rs, sz, n);
      }
    } else {
      OneIsEnough(rs, sz);
    }
  }

  lemma {:induction false} OneIsEnough(rs: seq<Region>, sz: nat)
    requires Fits(Region(RegionSize(sz), 0), sz)
    ensures FirstFit(Walked(rs, sz, 1), sz, 0) != |Walked(rs, sz, 1)|
  {
    hide RegionSize, FirstFit;
    var one := Walked(rs, sz, 1);
    assert Walked(rs, sz, 0) == rs;
    assert one[|rs|] == Region(RegionSize(sz), 0);
  }

  lemma {:induction false} NoneHasRoom(rs: seq<Region>, sz: nat, n: nat)
    requires SIZE_T - 1024 <= sz < SIZE_T && FirstFit(rs, sz, 0) == |rs|
    ensures FirstFit(Walked(rs, sz, n), sz, 0) == |Walked(rs, sz, n)|
    decreases n
  {
    hide RegionSize;
    FreshRegionFits(sz);
    if n > 0 {
      NoneHasRoom(rs, sz, n - 1);
      var all := Walked(rs, sz, n);
      assert forall i :: 0 <= i < |all| ==> !Fits(all[i], sz);
    }
  }
}
