/**
 * A client connection (`dispatch_connection`, `dispatch_received_metrics`,
 * `dispatch_process_dests`) on plain TCP with tag support off: bytes arrive in
 * arbitrary pieces, unfinished lines are scanned again, and delivery may stall
 * on a full queue and resume later.
 */
module Connections {
  import opened Common
  import opened Cleanser

  /** Where a routed line goes, as the router decides. */
  type Router<D> = Routed -> seq<D>

  /** All destinations of a list of routed lines, in order. */
  ghost function Destinations<D>(route: Router<D>, lines: seq<Routed>): seq<D> {
    if lines == [] then [] else Destinations(route, lines[..|lines| - 1]) + route(lines[|lines| - 1])
  }

  ghost predicate IsSuffix<D>(s: seq<D>, t: seq<D>) {
    |s| <= |t| && t[|t| - |s|..] == s
  }

  /** What a read returns: bytes, nothing right now, or the end of the stream. */
  datatype Input = Bytes(bytes: string) | WouldBlock | Ended

  // ---------------------------------------------------------------------
  // The scan of a buffer, on values
  // ---------------------------------------------------------------------

  /** The buffer holds the rest of the stream. */
  ghost predicate Rest(stream: string, consumed: nat, bytes: string) {
    consumed + |bytes| == |stream| && SameBytes(bytes, stream[consumed..])
  }

  /** The lines of the first `n` bytes have been routed, and a line starts there. */
  ghost predicate UpTo(cfg: Config, stream: string, n: int, s: Scan) {
    0 <= n <= |stream| && ConsumeAll(cfg, START, stream[..n]) == s.(line := EMPTY)
  }

  /** Between scans: the buffer starts with a line, and holds no whole one if more input is needed. */
  ghost predicate Rested(cfg: Config, stream: string, consumed: nat, bytes: string, s: Scan, needmore: bool) {
    && Rest(stream, consumed, bytes) && UpTo(cfg, stream, consumed, s)
    && (needmore ==> Ends(stream[consumed..]) == 0)
  }

  /** The scan stands at `p` of the buffer; the line under construction began behind `lastnl`. */
  ghost predicate ScanAt(cfg: Config, stream: string, consumed: nat, bytes: string, p: nat, lastnl: int, s: Scan) {
    && Rest(stream, consumed, bytes)
    && p <= |bytes| && -1 <= lastnl < p && |s.line.q| <= p - (lastnl + 1)
    && (s.line.q == "" <==> lastnl == p - 1)
    && ConsumeAll(cfg, START, stream[..consumed + p]) == s
    && UpTo(cfg, stream, consumed + (lastnl + 1), s)
    && Ends(stream[consumed + (lastnl + 1)..consumed + p]) == 0
  }

  lemma {:induction false} ScanStarts(cfg: Config, stream: string, consumed: nat, bytes: string, s: Scan)
    requires Rest(stream, consumed, bytes) && UpTo(cfg, stream, consumed, s) && s.line == EMPTY
    ensures ScanAt(cfg, stream, consumed, bytes, 0, -1, s)
  {
    assert stream[consumed..consumed] == "";
  }

  lemma {:induction false} ByteAt(stream: string, consumed: nat, bytes: string, p: nat)
    requires Rest(stream, consumed, bytes) && p < |bytes|
    ensures consumed + p < |stream|
    ensures bytes[p] == stream[consumed + p] || (bytes[p] == ' ' && stream[consumed + p] == '\t')
    ensures bytes[p] == '\t' ==> Rest(stream, consumed, bytes[p := ' '])
  {
    assert stream[consumed..][p] == stream[consumed + p];
  }

  lemma {:induction false} StepShape(cfg: Config, l: Line, c: char)
    ensures var t := Step(cfg, l, c);
            && |t.q| <= |l.q| + 1 && (l.q != "" ==> t.q != "") && (l == EMPTY && t.q == "" ==> t == EMPTY)
    ensures c == ' ' ==> Step(cfg, l, ' ') == Step(cfg, l, '\t')
  {
  }

  /** A byte inside a line, which may turn a tab of the buffer into a space. */
  lemma {:induction false} CharStep(cfg: Config, stream: string, consumed: nat, bytes: string, p: nat, lastnl: int,
                                    s: Scan)
    requires ScanAt(cfg, stream, consumed, bytes, p, lastnl, s) && p < |bytes| && !IsEnd(bytes[p])
    ensures var l := Step(cfg, s.line, bytes[p]);
            var bytes' := if bytes[p] == '\t' && s.line.q != "" then bytes[p := ' '] else bytes;
            && |l.q| <= |s.line.q| + 1
            && ScanAt(cfg, stream, consumed, bytes', p + 1, if l.q == "" then p else lastnl, s.(line := l))
  {
    hide ConsumeAll, Ends, Step, Rest;
    ByteAt(stream, consumed, bytes, p);
    StepShape(cfg, s.line, bytes[p]);
    NextByte(cfg, stream, consumed, p, lastnl);
    if s.line.q == "" {
      assert s.line == EMPTY;
    }
  }

  lemma {:induction false} EndStep(cfg: Config, stream: string, consumed: nat, bytes: string, p: nat, lastnl: int,
                                   s: Scan)
    requires ScanAt(cfg, stream, consumed, bytes, p, lastnl, s) && p < |bytes| && IsEnd(bytes[p])
    ensures ScanAt(cfg, stream, consumed, bytes, p + 1, p, Consume(cfg, s, bytes[p]))
  {
    hide ConsumeAll, Ends, Step, Rest;
    ByteAt(stream, consumed, bytes, p);
    NextByte(cfg, stream, consumed, p, lastnl);
  }

  lemma {:induction false} RestShrinks(stream: string, consumed: nat, bytes: string, k: nat)
    requires Rest(stream, consumed, bytes) && k <= |bytes|
    ensures Rest(stream, consumed + k, bytes[k..])
  {
    forall i | 0 <= i < |bytes[k..]|
      ensures bytes[k..][i] == bytes[k + i] && stream[consumed + k..][i] == stream[consumed..][k + i]
    {
    }
  }

  /** What is left when the scan ends: whole lines are gone, and a line begun has no end yet. */
  lemma {:induction false} ScanEnds(cfg: Config, stream: string, consumed: nat, bytes: string, p: nat, lastnl: int,
                                    s: Scan)
    requires ScanAt(cfg, stream, consumed, bytes, p, lastnl, s) && (s.line.q == "" || p == |bytes|)
    ensures -1 <= lastnl < p <= |bytes| && (s.line.q == "" ==> lastnl + 1 == p)
    ensures Rested(cfg, stream, consumed + (lastnl + 1), bytes[lastnl + 1..], s.(line := EMPTY), s.line.q != "")
  {
    hide ConsumeAll, Ends, SameBytes;
    RestShrinks(stream, consumed, bytes, lastnl + 1);
    assert p == |bytes| ==> stream[consumed + (lastnl + 1)..consumed + p] == stream[consumed + (lastnl + 1)..];
  }

  lemma {:induction false} ScanBounds(cfg: Config, stream: string, consumed: nat, bytes: string, p: nat, lastnl: int,
                                      s: Scan)
    requires ScanAt(cfg, stream, consumed, bytes, p, lastnl, s)
    ensures |s.line.q| <= p <= |bytes|
  {
  }

  lemma {:induction false} RestGrows(stream: string, consumed: nat, bytes: string, more: string)
    requires Rest(stream, consumed, bytes)
    ensures Rest(stream + more, consumed, bytes + more)
  {
    assert (stream + more)[consumed..] == stream[consumed..] + more;
  }

  class Connection<D> {
    const cfg: Config
    const route: Router<D>
    const buf: array<char>
    var buflen: nat
    const metric: array<char>
    var dests: seq<D>
    var needmore: bool
    var closed: bool
    var metrics: nat
    var discards: nat

    ghost var stream: string         // every byte read
    ghost var consumed: nat          // how many of them have left the buffer
    ghost var routed: seq<Routed>    // every line given to the router
    ghost var accepted: seq<D>       // every destination accepted by a server

    ghost predicate Sized()
      reads this
    {
      0 < buf.Length <= METRIC_BUFSIZ == metric.Length && buf != metric && buflen < buf.Length
    }

    /** Every destination of every routed line has been accepted once, except the pending ones. */
    ghost predicate Delivered()
      reads this
    {
      && accepted + dests == Destinations(route, routed)
      && (dests != [] ==> routed != [] && IsSuffix(dests, route(routed[|routed| - 1])))
    }

    /** What has been produced, with a given line under construction. */
    ghost function Produced(l: Line): Scan
      reads this
    {
      Scan(l, routed, metrics, discards)
    }

    ghost predicate Valid()
      reads this, buf
    {
      && Sized() && Delivered()
      && Rested(cfg, stream, consumed, buf[..buflen], Produced(EMPTY), needmore)
    }

    /** Nothing is pending and the buffer holds no complete line. */
    ghost predicate Drained()
      reads this
    {
      dests == [] && (needmore || buflen == 0)
    }

    constructor (cfg: Config, route: Router<D>, bufsize: nat)
      requires 0 < bufsize <= METRIC_BUFSIZ
      ensures Valid() && stream == "" && routed == [] && accepted == []
      ensures this.cfg == cfg && this.route == route && fresh(buf) && fresh(metric)
      ensures buf.Length == bufsize && buflen == 0 && dests == [] && !closed && metrics == discards == 0
    {
      this.cfg := cfg;
      this.route := route;
      buf := new char[bufsize](_ => '\0');
      metric := new char[METRIC_BUFSIZ](_ => '\0');
      buflen, dests, needmore, closed, metrics, discards := 0, [], false, false, 0, 0;
      stream, consumed, routed, accepted := "", 0, [], [];
    }

    // -------------------------------------------------------------------
    // dispatch_process_dests
    // -------------------------------------------------------------------

    /** Offers the pending destinations in order; stops at the first refusal. */
    method ProcessDests() returns (done: bool)
      requires Delivered()
      modifies this`dests, this`accepted
      ensures Delivered() && done == (dests == [])
      ensures accepted + dests == old(accepted + dests) && IsSuffix(dests, old(dests))
    {
      hide Destinations, IsSuffix;
      var i := 0;
      ghost var was, all := accepted, dests;
      Untouched(was, all);
      while i < |dests|
        invariant 0 <= i <= |dests| && dests == all && accepted == was + all[..i]
      {
        var sent: bool := *;   // server_send
        if !sent {
          break;
        }
        OneMore(was, all, i);
        accepted := accepted + [dests[i]];
        i := i + 1;
      }
      Shifted(was, all, i);
      if i < |dests| {
        SuffixShrinks(all, i, route(routed[|routed| - 1]));
        dests := dests[i..];
        done := false;
      } else {
        dests := [];
        done := true;
      }
    }

    // -------------------------------------------------------------------
    // dispatch_received_metrics
    // -------------------------------------------------------------------

    ghost predicate Scanning(p: nat, lastnl: int, q: nat, fs: Option<nat>)
      reads this, buf, metric
    {
      && Sized() && Delivered() && q <= metric.Length
      && ScanAt(cfg, stream, consumed, buf[..buflen], p, lastnl, Produced(Line(metric[..q], fs)))
    }

    /** Writes one byte of a line into the metric buffer; all indices are checked. */
    method Put(q: nat, fs: Option<nat>, c: char) returns (q': nat, fs': Option<nat>)
      requires q < metric.Length
      modifies metric
      ensures q' <= q + 1 && (q' == 0 <==> q == 0 && (c == ' ' || c == '\t' || c == '.'))
      ensures Line(metric[..q'], fs') == Step(cfg, Line(old(metric[..q]), fs), c)
    {
      q', fs' := q, fs;
      var c' := if c == '\t' then ' ' else c;
      if c' == ' ' || c' == '.' {
        if q == 0 {
          return;
        }
        if c' == ' ' && fs.None? {
          if metric[q - 1] == '.' {
            q' := q - 1;   // strip trailing separator
          }
          fs' := Some(q');
          metric[q'] := ' ';
          q' := q' + 1;
        } else if metric[q - 1] != c' && fs != Some(q - 1) {
          metric[q] := c';
          q' := q + 1;
        }
      } else if c != '\0' && (fs.Some? || Alnum(c) || c in cfg.allowed) {
        metric[q] := c;
        q' := q + 1;
      } else {
        metric[q] := '_';
        q' := q + 1;
      }
    }

    /** A byte inside a line. */
    method OnChar(p: nat, lastnl: int, q: nat, fs: Option<nat>) returns (lastnl': int, q': nat, fs': Option<nat>)
      requires Scanning(p, lastnl, q, fs) && p < buflen && !IsEnd(buf[p])
      modifies buf, metric
      ensures Scanning(p + 1, lastnl', q', fs')
    {
      hide ScanAt, Step, Destinations;
      var c := buf[p];
      ghost var bytes := buf[..buflen];
      ScanBounds(cfg, stream, consumed, bytes, p, lastnl, Produced(Line(metric[..q], fs)));
      CharStep(cfg, stream, consumed, bytes, p, lastnl, Produced(Line(metric[..q], fs)));
      if c == '\t' && q > 0 {
        buf[p] := ' ';
        assert buf[..buflen] == bytes[p := ' '];
      }
      q', fs' := Put(q, fs, c);
      lastnl' := if q' == 0 then p else lastnl;
    }

    /** A line terminator: drops the line, or routes it and tries to deliver. */
    method OnEnd(p: nat, lastnl: int, q: nat, fs: Option<nat>) returns (stalled: bool)
      requires Scanning(p, lastnl, q, fs) && p < buflen && IsEnd(buf[p]) && dests == []
      modifies this`dests, this`accepted, this`routed, this`metrics, this`discards, metric
      ensures Scanning(p + 1, p, 0, None) && stalled == (dests != [])
    {
      hide ConsumeAll, Ends, Destinations, Rest;
      EndStep(cfg, stream, consumed, buf[..buflen], p, lastnl, Produced(Line(metric[..q], fs)));
      stalled := false;
      if q == 0 || fs.None? || q > cfg.maxinplen - 1 || fs.value > cfg.maxmetriclen {
        discards := discards + 1;
      } else {
        metrics := metrics + 1;
        ghost var text := metric[..q];
        metric[q] := '\n';
        metric[q + 1] := '\0';
        assert metric[..q + 1] == text + "\n";
        stalled := RouteLine(Routed(metric[..q + 1], fs.value));
      }
      assert metric[..0] == "";
    }

    /** Hands a line to the router and offers it to its destinations. */
    method RouteLine(r: Routed) returns (stalled: bool)
      requires Delivered() && dests == []
      modifies this`dests, this`accepted, this`routed
      ensures Delivered() && routed == old(routed) + [r] && stalled == (dests != [])
    {
      assert (routed + [r])[..|routed|] == routed;
      assert accepted + [] == accepted;
      dests := route(r);
      routed := routed + [r];
      var done := ProcessDests();
      stalled := !done;
    }

    /** The scan of the buffer; ends early when a delivery stalls. */
    method ReceivedMetrics()
      requires Sized() && Delivered() && dests == []
      requires Rest(stream, consumed, buf[..buflen]) && UpTo(cfg, stream, consumed, Produced(EMPTY))
      modifies this, buf, metric
      ensures Valid() && stream == old(stream) && closed == old(closed)
      ensures dests == [] ==> Drained()
    {
      hide ConsumeAll, Ends, Destinations, Rest;
      var p, q, fs, lastnl, stalled := 0, 0, None, -1, false;
      assert metric[..0] == "";
      ScanStarts(cfg, stream, consumed, buf[..buflen], Produced(EMPTY));
      while p < buflen && !stalled
        invariant p <= buflen
        invariant Scanning(p, lastnl, q, fs)
        invariant stalled == (dests != [])
        invariant stalled ==> q == 0
        invariant stream == old(stream) && closed == old(closed)
        decreases buflen - p
      {
        if IsEnd(buf[p]) {
          stalled := OnEnd(p, lastnl, q, fs);
          lastnl, q, fs := p, 0, None;
        } else {
          lastnl, q, fs := OnChar(p, lastnl, q, fs);
        }
        p := p + 1;
      }
      FinishScan(p, lastnl, q, fs);
    }

    /** Sets `needmore` and moves what is left to the front of the buffer. */
    method FinishScan(p: nat, lastnl: int, q: nat, fs: Option<nat>)
      requires Scanning(p, lastnl, q, fs) && (q == 0 || p == buflen)
      requires p == buflen || dests != []
      modifies this`needmore, this`buflen, this`consumed, buf
      ensures Valid() && (dests == [] ==> Drained())
    {
      hide Destinations, Rested, ScanAt, IsSuffix;
      ghost var bytes, s, from := buf[..buflen], Produced(Line(metric[..q], fs)), consumed;
      ScanEnds(cfg, stream, from, bytes, p, lastnl, s);
      needmore := q != 0;
      Discard(lastnl);
      assert Produced(EMPTY) == s.(line := EMPTY);
    }

    /** Moves what stands behind the last line end to the front of the buffer. */
    method Discard(lastnl: int)
      requires -1 <= lastnl && lastnl + 1 <= buflen <= buf.Length
      modifies this`buflen, this`consumed, buf
      ensures buflen == old(buflen) - (lastnl + 1) && consumed == old(consumed) + (lastnl + 1)
      ensures buf[..buflen] == old(buf[..buflen])[lastnl + 1..]
    {
      if lastnl >= 0 {
        forall i | 0 <= i < buflen - (lastnl + 1) {
          buf[i] := buf[i + (lastnl + 1)];
        }
        buflen := buflen - (lastnl + 1);
        consumed := consumed + (lastnl + 1);
      }
    }

    // -------------------------------------------------------------------
    // dispatch_connection
    // -------------------------------------------------------------------

    /** Resumes pending deliveries, then works on what is buffered or reads more. */
    method Dispatch(input: Input) returns (r: int)
      requires Valid() && !closed
      requires input.Bytes? ==> 0 < |input.bytes| <= buf.Length - 1 - buflen
      modifies this, buf, metric
      ensures Valid()
      ensures var read := r == 1 && (old(needmore) || old(buflen) == 0);
              if read then input.Bytes? && stream == old(stream) + input.bytes else stream == old(stream)
      ensures closed ==> Drained() && input.Ended?
    {
      hide ConsumeAll, Ends, Destinations, Rest;
      var done := ProcessDests();
      if !done {
        return 0;
      }
      if !needmore && buflen > 0 {
        ReceivedMetrics();
        return 1;
      }
      match input {
        case Bytes(bytes) =>
          Append(bytes);
          ReceivedMetrics();
          return 1;
        case WouldBlock =>
          return -1;
        case Ended =>
          closed := true;
          return 0;
      }
    }

    /** A read lands behind the bytes already buffered. */
    method Append(bytes: string)
      requires Sized() && Rest(stream, consumed, buf[..buflen]) && UpTo(cfg, stream, consumed, Produced(EMPTY))
      requires |bytes| <= buf.Length - 1 - buflen
      modifies this`buflen, this`stream, buf
      ensures Sized() && Rest(stream, consumed, buf[..buflen]) && UpTo(cfg, stream, consumed, Produced(EMPTY))
      ensures stream == old(stream) + bytes
    {
      RestGrows(stream, consumed, buf[..buflen], bytes);
      ghost var was := buf[..buflen];
      forall i | 0 <= i < |bytes| {
        buf[buflen + i] := bytes[i];
      }
      assert buf[..buflen + |bytes|] == was + bytes;
      assert (stream + bytes)[..consumed] == stream[..consumed];
      buflen := buflen + |bytes|;
      stream := stream + bytes;
    }

    /** One turn of a run: as many bytes of the source as are ready and fit. */
    method Turn(source: string, from: nat, ready: nat) returns (taken: nat)
      requires Valid() && !closed && from <= |source| && stream == source[..from]
      modifies this, buf, metric
      ensures Valid() && taken <= |source| && stream == source[..taken]
      ensures closed ==> Drained()
    {
      hide ConsumeAll, Destinations;
      taken := from;
      var room := if |source| - from < buf.Length - 1 - buflen then |source| - from else buf.Length - 1 - buflen;
      var size := if ready < room then ready else room;
      var input := if size > 0 then Bytes(source[from..from + size])
                   else if from == |source| || buflen == buf.Length - 1 then Ended else WouldBlock;
      var empty := needmore || buflen == 0;
      var r := Dispatch(input);
      if r == 1 && empty {
        assert source[..from] + source[from..from + size] == source[..from + size];
        taken := from + size;
      }
    }

    /**
     * Main result: a connection that reads `source` in turns. Whatever number of
     * bytes is ready in each turn and whichever deliveries stall, the lines of what
     * was read are routed in order, and all of them once the connection is closed.
     */
    method Run(source: string, ready: seq<nat>) returns (taken: nat)
      requires Valid() && !closed && stream == ""
      modifies this, buf, metric
      ensures Valid() && taken <= |source| && stream == source[..taken]
      ensures routed <= ConsumeAll(cfg, START, source[..taken]).lines
      ensures accepted + dests == Destinations(route, routed)
      ensures closed ==> routed == ConsumeAll(cfg, START, source[..taken]).lines && dests == []
    {
      hide ConsumeAll, Destinations;
      taken := 0;
      var i := 0;
      while i < |ready| && !closed
        invariant Valid() && i <= |ready|
        invariant taken <= |source| && stream == source[..taken]
        invariant closed ==> Drained()
      {
        taken := Turn(source, taken, ready[i]);
        i := i + 1;
      }
      RoutedSoFar(this);
      if closed {
        DrainedHasRoutedAll(this);
      }
    }
  }

  lemma {:induction false} SuffixShrinks<D>(s: seq<D>, i: nat, t: seq<D>)
    requires i <= |s| && (s != [] ==> IsSuffix(s, t))
    ensures s[i..] != [] ==> IsSuffix(s[i..], t)
  {
    if s[i..] != [] {
      assert t[|t| - |s[i..]|..] == t[|t| - |s|..][i..];
    }
  }

  lemma {:induction false} Untouched<D>(accepted: seq<D>, dests: seq<D>)
    ensures accepted + dests[..0] == accepted
  {
  }

  lemma {:induction false} OneMore<D>(accepted: seq<D>, dests: seq<D>, i: nat)
    requires i < |dests|
    ensures accepted + dests[..i] + [dests[i]] == accepted + dests[..i + 1]
  {
  }

  lemma {:induction false} Shifted<D>(accepted: seq<D>, dests: seq<D>, i: nat)
    requires i <= |dests|
    ensures accepted + dests[..i] + dests[i..] == accepted + dests
    ensures IsSuffix(dests[i..], dests)
    ensures i == |dests| ==> dests[i..] == []
  {
    assert dests == dests[..i] + dests[i..];
  }

  /** Reading on by one byte, in terms of the whole stream. */
  lemma {:induction false} NextByte(cfg: Config, stream: string, consumed: nat, p: nat, lastnl: int)
    requires consumed + p < |stream| && -1 <= lastnl < p
    ensures var b := stream[consumed + p];
            && ConsumeAll(cfg, START, stream[..consumed + p + 1]) ==
               Consume(cfg, ConsumeAll(cfg, START, stream[..consumed + p]), b)
            && Ends(stream[consumed + (lastnl + 1)..consumed + p + 1]) ==
               Ends(stream[consumed + (lastnl + 1)..consumed + p]) + (if IsEnd(b) then 1 else 0)
    ensures Ends(stream[consumed + p + 1..consumed + p + 1]) == 0
  {
    var n, b := consumed + p, stream[consumed + p];
    assert stream[..n + 1] == stream[..n] + [b];
    ConsumeOne(cfg, START, stream[..n], b);
    var k := consumed + (lastnl + 1);
    assert stream[k..n + 1][..n - k] == stream[k..n];
  }

  /**
   * Main result: whatever pieces a stream came in and wherever deliveries stalled, the same lines were
   * routed to the same destinations.
   */
  lemma {:induction false} SplitsAndStallsDoNotMatter<D>(c1: Connection<D>, c2: Connection<D>)
    requires c1.Valid() && c2.Valid() && c1.Drained() && c2.Drained()
    requires c1.cfg == c2.cfg && c1.route == c2.route && c1.stream == c2.stream
    ensures c1.routed == c2.routed == ConsumeAll(c1.cfg, START, c1.stream).lines
    ensures c1.accepted == c2.accepted
  {
    DrainedHasRoutedAll(c1);
    DrainedHasRoutedAll(c2);
    assert c1.accepted + [] == c1.accepted && c2.accepted + [] == c2.accepted;
  }

  lemma {:induction false} DrainedHasRoutedAll<D>(c: Connection<D>)
    requires c.Valid() && c.Drained()
    ensures c.routed == ConsumeAll(c.cfg, START, c.stream).lines
  {
    RoutedSoFar(c);
    assert c.buflen == 0 ==> c.stream[c.consumed..] == "";
    LinesGrow(c.cfg, ConsumeAll(c.cfg, START, c.stream[..c.consumed]), c.stream[c.consumed..]);
  }

  /** At any time: a prefix of the stream's lines has been routed, and every terminator in it was counted. */
  lemma {:induction false} RoutedSoFar<D>(c: Connection<D>)
    requires c.Valid()
    ensures c.routed <= ConsumeAll(c.cfg, START, c.stream).lines
    ensures ConsumeAll(c.cfg, START, c.stream) ==
            ConsumeAll(c.cfg, ConsumeAll(c.cfg, START, c.stream[..c.consumed]), c.stream[c.consumed..])
    ensures c.metrics + c.discards == Ends(c.stream[..c.consumed]) && c.metrics == |c.routed|
  {
    var a, b := c.stream[..c.consumed], c.stream[c.consumed..];
    assert c.stream == a + b;
    ConsumeAppend(c.cfg, START, a, b);
    LinesGrow(c.cfg, ConsumeAll(c.cfg, START, a), b);
    TerminatorsAreCounted(c.cfg, START, a);
  }
}
