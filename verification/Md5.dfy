/**
 * MD5 as a stream (`md5.c`): buffering, padding and length counters over an
 * arbitrary compression function, against sections 3.1 to 3.5 of RFC 1321.
 */
module Md5 {

  type byte = x: int | 0 <= x < 256
  type u32 = x: int | 0 <= x < 0x1_0000_0000

  datatype State = State(a: u32, b: u32, c: u32, d: u32)

  /** The transformation of one 64-byte block. */
  type Compress = (State, seq<byte>) -> State

  const INIT := State(0x67452301, 0xefcdab89, 0x98badcfe, 0x10325476)

  // ---------------------------------------------------------------------
  // RFC 1321
  // ---------------------------------------------------------------------

  /** Low-order byte first. */
  function Bytes32(x: u32): (r: seq<byte>)
    ensures |r| == 4
  {
    [x % 256, x / 256 % 256, x / 65536 % 256, x / 16777216]
  }

  lemma {:induction false} BytesOfWord(x: u32)
    ensures var r := Bytes32(x);
            x == r[0] as int + 256 * r[1] as int + 65536 * r[2] as int + 16777216 * r[3] as int
  {
  }

  /** The number of zero bytes that brings the length to 56 modulo 64, after the 0x80. */
  function ZeroCount(n: nat): (k: nat)
    ensures k < 64 && (n + 1 + k) % 64 == 56 && (n + k + 9) % 64 == 0
  {
    var q, r := n / 64, n % 64;
    var k := if r < 56 then 55 - r else 119 - r;
    assert n + k + 9 == 64 * (q + if r < 56 then 1 else 2);
    k
  }

  function Zeros(k: nat): (r: seq<byte>)
    ensures |r| == k && forall i :: 0 <= i < k ==> r[i] == 0
  {
    seq(k, _ => 0)
  }

  /** Section 3.1: one bit, then zeros up to 56 modulo 64; section 3.2: eight bytes of length. */
  function PadWith(msg: seq<byte>, len: seq<byte>): (r: seq<byte>)
    requires |len| == 8
    ensures |r| % 64 == 0
  {
    var r := msg + [0x80] + Zeros(ZeroCount(|msg|)) + len;
    assert |r| == |msg| + ZeroCount(|msg|) + 9;
    r
  }

  /** The length in bits modulo 2^64, low-order word first. */
  function Length(n: nat): (r: seq<byte>)
    ensures |r| == 8
  {
    var bits := 8 * n % 0x1_0000_0000_0000_0000;
    Bytes32(bits % 0x1_0000_0000) + Bytes32(bits / 0x1_0000_0000)
  }

  function Padded(msg: seq<byte>): (r: seq<byte>)
    ensures |r| % 64 == 0
  {
    PadWith(msg, Length(|msg|))
  }

  /** Section 3.4: the blocks one after the other. */
  function Fold(f: Compress, s: State, data: seq<byte>): State
    requires |data| % 64 == 0
    decreases |data|
  {
    if data == [] then s else Fold(f, f(s, data[..64]), data[64..])
  }

  /** Section 3.5. */
  function Output(s: State): seq<byte> {
    Bytes32(s.a) + Bytes32(s.b) + Bytes32(s.c) + Bytes32(s.d)
  }

  function Digest(f: Compress, msg: seq<byte>): seq<byte> {
    Output(Fold(f, INIT, Padded(msg)))
  }

  /** Section 3.3: the four words, low-order bytes first. */
  lemma {:induction false} InitialWords()
    ensures Output(INIT) == [0x01, 0x23, 0x45, 0x67, 0x89, 0xab, 0xcd, 0xef,
                             0xfe, 0xdc, 0xba, 0x98, 0x76, 0x54, 0x32, 0x10]
  {
    assert Bytes32(INIT.a) == [0x01, 0x23, 0x45, 0x67] && Bytes32(INIT.b) == [0x89, 0xab, 0xcd, 0xef];
    assert Bytes32(INIT.c) == [0xfe, 0xdc, 0xba, 0x98] && Bytes32(INIT.d) == [0x76, 0x54, 0x32, 0x10];
  }

  lemma {:induction false} FoldAppend(f: Compress, s: State, a: seq<byte>, b: seq<byte>)
    requires |a| % 64 == 0 && |b| % 64 == 0
    ensures Fold(f, s, a + b) == Fold(f, Fold(f, s, a), b)
    decreases |a|
  {
    if a == [] {
      assert a + b == b;
    } else {
      assert (a + b)[..64] == a[..64] && (a + b)[64..] == a[64..] + b;
      FoldAppend(f, f(s, a[..64]), a[64..], b);
    }
  }

  // ---------------------------------------------------------------------
  // The auxiliary functions of section 3.4, in the forms the source uses
  // ---------------------------------------------------------------------

  function F(x: bv32, y: bv32, z: bv32): (r: bv32)
    ensures r == (x & y) | (!x & z)
  {
    z ^ (x & (y ^ z))
  }

  function G(x: bv32, y: bv32, z: bv32): (r: bv32)
    ensures r == (x & z) | (y & !z)
  {
    y ^ (z & (x ^ y))
  }

  function H2(x: bv32, y: bv32, z: bv32): (r: bv32)
    ensures r == x ^ y ^ z
  {
    x ^ (y ^ z)
  }

  // ---------------------------------------------------------------------
  // Counters
  // ---------------------------------------------------------------------

  /** The byte count is kept as its low 29 bits and the 32 bits above them. */
  function LowCount(n: nat): nat { n % 0x2000_0000 }

  function HighCount(n: nat): nat { n / 0x2000_0000 % 0x1_0000_0000 }

  lemma {:induction false} DivMod29(n: nat, q: nat, r: nat)
    requires n == q * 0x2000_0000 + r && r < 0x2000_0000
    ensures n / 0x2000_0000 == q && n % 0x2000_0000 == r
  {
  }

  lemma {:induction false} DivMod32(n: nat, q: nat, r: nat)
    requires n == q * 0x1_0000_0000 + r && r < 0x1_0000_0000
    ensures n / 0x1_0000_0000 == q && n % 0x1_0000_0000 == r
  {
  }

  /** Reducing a summand first does not change a sum modulo 2^32. */
  lemma {:induction false} Mod32Add(x: nat, p: nat)
    ensures (x % 0x1_0000_0000 + p) % 0x1_0000_0000 == (x + p) % 0x1_0000_0000
  {
    var y := x % 0x1_0000_0000 + p;
    DivMod32(x + p, x / 0x1_0000_0000 + y / 0x1_0000_0000, y % 0x1_0000_0000);
  }

  lemma {:induction false} CountersAdd(n: nat, size: nat)
    ensures var lo := (LowCount(n) + size) % 0x2000_0000;
            var hi := if lo < LowCount(n) then (HighCount(n) + 1) % 0x1_0000_0000 else HighCount(n);
            lo == LowCount(n + size) && (hi + size / 0x2000_0000) % 0x1_0000_0000 == HighCount(n + size)
  {
    var q, r := n / 0x2000_0000, n % 0x2000_0000;
    var p, t := size / 0x2000_0000, size % 0x2000_0000;
    var carry := if r + t < 0x2000_0000 then 0 else 1;
    DivMod29(n + size, q + p + carry, r + t - carry * 0x2000_0000);
    DivMod29(r + size, p + carry, r + t - carry * 0x2000_0000);
    Mod32Add(q, carry);
    Mod32Add(q + carry, p);
    assert q + carry + p == q + p + carry;
  }

  lemma {:induction false} DivMod64(n: nat, q: nat, r: nat)
    requires n == q * 0x1_0000_0000_0000_0000 + r && r < 0x1_0000_0000_0000_0000
    ensures n % 0x1_0000_0000_0000_0000 == r
  {
  }

  /** The two counters are the two words of the length in bits, modulo 2^64. */
  lemma {:induction false} CountersAreBitLength(n: nat)
    ensures var bits := 8 * n % 0x1_0000_0000_0000_0000;
            LowCount(n) * 8 == bits % 0x1_0000_0000 && HighCount(n) == bits / 0x1_0000_0000
  {
    var q, lo := n / 0x2000_0000, LowCount(n);
    var hi, over := q % 0x1_0000_0000, q / 0x1_0000_0000;
    var bits := hi * 0x1_0000_0000 + lo * 8;
    assert 8 * n == over * 0x1_0000_0000_0000_0000 + bits;
    DivMod64(8 * n, over, bits);
    DivMod32(bits, hi, lo * 8);
  }

  // ---------------------------------------------------------------------
  // The context
  // ---------------------------------------------------------------------

  function Whole(n: nat): (w: nat)
    ensures w <= n && w % 64 == 0 && n - w == n % 64
  {
    n - n % 64
  }

  class Context {
    const f: Compress
    var lo: nat
    var hi: nat
    var s: State
    const buffer: array<byte>
    ghost var msg: seq<byte>

    ghost predicate Valid()
      reads this, buffer
    {
      && buffer.Length == 64
      && lo == LowCount(|msg|) && hi == HighCount(|msg|)
      && s == Fold(f, INIT, msg[..Whole(|msg|)])
      && buffer[..|msg| % 64] == msg[Whole(|msg|)..]
    }

    constructor (f: Compress)
      ensures Valid() && msg == [] && this.f == f && fresh(buffer)
    {
      this.f := f;
      lo, hi, s := 0, 0, INIT;
      buffer := new byte[64](_ => 0);
      msg := [];
    }

    /** One or more whole blocks; the counters are not touched. */
    method Body(data: seq<byte>)
      requires |data| >= 64 && |data| % 64 == 0
      modifies this`s
      ensures s == Fold(f, old(s), data)
    {
      var i := 0;
      while i < |data|
        invariant 0 <= i <= |data| && i % 64 == 0
        invariant Fold(f, s, data[i..]) == Fold(f, old(s), data)
      {
        assert data[i..][..64] == data[i..i + 64] && data[i..][64..] == data[i + 64..];
        s := f(s, data[i..i + 64]);
        i := i + 64;
      }
    }

    /** `memcpy` of `data` into the buffer from `at` on. */
    method CopyIn(at: nat, data: seq<byte>)
      requires at + |data| <= buffer.Length
      modifies buffer
      ensures buffer[..at + |data|] == old(buffer[..at]) + data
      ensures buffer[at + |data|..] == old(buffer[at + |data|..])
    {
      forall i | 0 <= i < |data| {
        buffer[at + i] := data[i];
      }
    }

    /** The counter part of an update; both are 32-bit words, `lo` cut to 29 bits. */
    method Count(size: nat)
      requires lo == LowCount(|msg|) && hi == HighCount(|msg|)
      modifies this`lo, this`hi
      ensures lo == LowCount(|msg| + size) && hi == HighCount(|msg| + size)
    {
      CountersAdd(|msg|, size);
      var savedLo := lo;
      lo := (savedLo + size) % 0x2000_0000;
      if lo < savedLo {
        hi := (hi + 1) % 0x1_0000_0000;
      }
      hi := (hi + size / 0x2000_0000) % 0x1_0000_0000;
    }

    method Update(data: seq<byte>)
      requires Valid()
      modifies this, buffer
      ensures Valid() && msg == old(msg) + data
    {
      UsedFromLow(|msg|);
      var used := lo % 64;
      Count(|data|);
      Absorb(used, data);
      msg := msg + data;
    }

    /** The buffering part of an update. */
    method Absorb(used: nat, data: seq<byte>)
      requires buffer.Length == 64 && used == |msg| % 64
      requires s == Fold(f, INIT, msg[..Whole(|msg|)]) && buffer[..used] == msg[Whole(|msg|)..]
      modifies this`s, buffer
      ensures s == Fold(f, INIT, (msg + data)[..Whole(|msg + data|)])
      ensures buffer[..|msg + data| % 64] == (msg + data)[Whole(|msg + data|)..]
    {
      var available := 64 - used;
      ghost var all := msg + data;
      if used == 0 {
        EvenChunk(msg, data);
        Bulk(data, all);
      } else if |data| < available {
        SmallChunk(msg, data);
        CopyIn(used, data);
      } else {
        LargeChunk(msg, data);
        FillUp(used, data[..available]);
        Bulk(data[available..], all);
      }
    }

    /** Completes the block in the buffer and runs it. */
    method FillUp(used: nat, data: seq<byte>)
      requires buffer.Length == 64 && used == |msg| % 64 && used + |data| == 64
      requires s == Fold(f, INIT, msg[..Whole(|msg|)]) && buffer[..used] == msg[Whole(|msg|)..]
      modifies this`s, buffer
      ensures s == Fold(f, INIT, msg + data)
    {
      CopyIn(used, data);
      assert buffer[..] == buffer[..64] == msg[Whole(|msg|)..] + data;
      assert msg + data == msg[..Whole(|msg|)] + buffer[..];
      FoldAppend(f, INIT, msg[..Whole(|msg|)], buffer[..]);
      Body(buffer[..]);
    }

    /** Runs the whole blocks of what is left of `all` and buffers the remainder. */
    method Bulk(rest: seq<byte>, ghost all: seq<byte>)
      requires buffer.Length == 64 && |rest| <= |all|
      requires (|all| - |rest|) % 64 == 0 && rest == all[|all| - |rest|..]
      requires s == Fold(f, INIT, all[..|all| - |rest|])
      modifies this`s, buffer
      ensures s == Fold(f, INIT, all[..Whole(|all|)])
      ensures buffer[..|all| % 64] == all[Whole(|all|)..]
    {
      var n := |rest| - |rest| % 64;
      ghost var done := |all| - |rest|;
      WholeOfRest(|all|, |rest|);
      assert all[done..done + n] == rest[..n] && all[done + n..] == rest[n..];
      if |rest| >= 64 {
        Absorbed(f, all, done, done + n);
        Body(rest[..n]);
      }
      CopyIn(0, rest[n..]);
    }

    /** Pads, appends the counters, runs the last block or two, and wipes the context. */
    method Final() returns (result: seq<byte>)
      requires Valid()
      modifies this, buffer
      ensures result == Digest(f, old(msg))
    {
      UsedFromLow(|msg|);
      CountersAreBitLength(|msg|);
      Pad(lo % 64, Length(|msg|));
      CopyIn(56, Bytes32(lo * 8) + Bytes32(hi));
      assert buffer[..] == buffer[..64];
      Body(buffer[..]);
      result := Output(s);
      lo, hi, s := 0, 0, State(0, 0, 0, 0);
      CopyIn(0, Zeros(64));
    }

    /** The 0x80 and the zeros; leaves the last block complete up to the length. */
    method Pad(used: nat, ghost len: seq<byte>)
      requires buffer.Length == 64 && used == |msg| % 64
      requires s == Fold(f, INIT, msg[..Whole(|msg|)]) && buffer[..used] == msg[Whole(|msg|)..]
      requires |len| == 8
      modifies this`s, buffer
      ensures Fold(f, s, buffer[..56] + len) == Fold(f, INIT, PadWith(msg, len))
    {
      ghost var tail := buffer[..used];
      CopyIn(used, [0x80]);
      if 64 - (used + 1) < 8 {
        CopyIn(used + 1, Zeros(64 - (used + 1)));
        assert buffer[..] == buffer[..64] == Marked(tail, 64);
        PaddedLong(f, msg, len);
        Body(buffer[..]);
        CopyIn(0, Zeros(56));
        assert buffer[..56] == Zeros(56);
      } else {
        CopyIn(used + 1, Zeros(56 - (used + 1)));
        assert buffer[..56] == Marked(tail, 56);
        PaddedShort(f, msg, len);
      }
    }
  }

  /** The rest of a message with the 0x80 behind it, filled up with zeros. */
  function Marked(tail: seq<byte>, n: nat): (r: seq<byte>)
    requires |tail| < n
    ensures |r| == n
  {
    tail + [0x80] + Zeros(n - 1 - |tail|)
  }

  lemma {:induction false} PaddedShort(f: Compress, msg: seq<byte>, len: seq<byte>)
    requires |msg| % 64 < 56 && |len| == 8
    ensures var done, tail := msg[..Whole(|msg|)], msg[Whole(|msg|)..];
            Fold(f, INIT, PadWith(msg, len)) == Fold(f, Fold(f, INIT, done), Marked(tail, 56) + len)
  {
    var done, tail := msg[..Whole(|msg|)], msg[Whole(|msg|)..];
    assert msg == done + tail;
    assert PadWith(msg, len) == done + (Marked(tail, 56) + len);
    FoldAppend(f, INIT, done, Marked(tail, 56) + len);
  }

  lemma {:induction false} PaddedLong(f: Compress, msg: seq<byte>, len: seq<byte>)
    requires |msg| % 64 >= 56 && |len| == 8
    ensures var done, tail := msg[..Whole(|msg|)], msg[Whole(|msg|)..];
            Fold(f, INIT, PadWith(msg, len)) ==
            Fold(f, Fold(f, Fold(f, INIT, done), Marked(tail, 64)), Zeros(56) + len)
  {
    var done, tail := msg[..Whole(|msg|)], msg[Whole(|msg|)..];
    var one, two := Marked(tail, 64), Zeros(56) + len;
    assert msg == done + tail;
    assert Zeros(119 - |tail|) == Zeros(63 - |tail|) + Zeros(56);
    assert PadWith(msg, len) == done + (one + two);
    FoldAppend(f, INIT, done, one + two);
    FoldAppend(f, Fold(f, INIT, done), one, two);
  }

  function Concat(chunks: seq<seq<byte>>): seq<byte> {
    if chunks == [] then [] else Concat(chunks[..|chunks| - 1]) + chunks[|chunks| - 1]
  }

  /** Main result: however a message is cut into updates, its digest is that of the RFC. */
  method HashChunks(f: Compress, chunks: seq<seq<byte>>) returns (result: seq<byte>)
    ensures result == Digest(f, Concat(chunks))
  {
    var ctx := new Context(f);
    var i := 0;
    while i < |chunks|
      invariant 0 <= i <= |chunks| && ctx.Valid() && ctx.f == f
      invariant fresh(ctx) && fresh(ctx.buffer)
      invariant ctx.msg == Concat(chunks[..i])
    {
      assert chunks[..i + 1][..i] == chunks[..i];
      ctx.Update(chunks[i]);
      i := i + 1;
    }
    assert chunks[..i] == chunks;
    result := ctx.Final();
  }

  lemma {:induction false} WholeOfRest(all: nat, rest: nat)
    requires rest <= all && (all - rest) % 64 == 0
    ensures all % 64 == rest % 64 && Whole(all) == all - rest + Whole(rest)
  {
    assert all - rest == 64 * ((all - rest) / 64);
  }

  lemma {:induction false} UsedFromLow(n: nat)
    ensures LowCount(n) % 64 == n % 64
  {
    assert n == n / 0x2000_0000 * 0x2000_0000 + LowCount(n);
  }

  lemma {:induction false} EvenChunk(msg: seq<byte>, data: seq<byte>)
    requires |msg| % 64 == 0
    ensures Whole(|msg|) == |msg| && msg[..|msg|] == msg == (msg + data)[..|msg|] && data == (msg + data)[|msg|..]
  {
  }

  lemma {:induction false} LargeChunk(msg: seq<byte>, data: seq<byte>)
    requires |msg| % 64 > 0 && |msg| % 64 + |data| >= 64
    ensures var k, all := 64 - |msg| % 64, msg + data;
            && |all| - |data[k..]| == |msg| + k && (|msg| + k) % 64 == 0
            && msg + data[..k] == all[..|msg| + k] && data[k..] == all[|msg| + k..]
  {
  }

  lemma {:induction false} SmallChunk(msg: seq<byte>, data: seq<byte>)
    requires |msg| % 64 + |data| < 64
    ensures Whole(|msg| + |data|) == Whole(|msg|) && (|msg| + |data|) % 64 == |msg| % 64 + |data|
    ensures (msg + data)[..Whole(|msg|)] == msg[..Whole(|msg|)]
    ensures (msg + data)[Whole(|msg|)..] == msg[Whole(|msg|)..] + data
  {
  }

  lemma {:induction false} Absorbed(f: Compress, all: seq<byte>, from: nat, to: nat)
    requires from <= to <= |all| && from % 64 == 0 && to % 64 == 0
    ensures Fold(f, INIT, all[..to]) == Fold(f, Fold(f, INIT, all[..from]), all[from..to])
  {
    assert all[..to] == all[..from] + all[from..to];
    FoldAppend(f, INIT, all[..from], all[from..to]);
  }
}
