/**
 * The line cleanser: the character machine of `dispatch_received_metrics`
 * with tag support off, as a function of the bytes received.
 */
module Cleanser {
  import opened Common

  datatype Config = Config(allowed: string, maxinplen: int, maxmetriclen: int)

  /** The line being built, and the offset of its first space. */
  datatype Line = Line(q: string, fs: Option<nat>)

  const EMPTY := Line("", None)

  predicate IsEnd(c: char) {
    c == '\n' || c == '\r'
  }

  predicate Alnum(c: char) {
    'a' <= c <= 'z' || 'A' <= c <= 'Z' || '0' <= c <= '9'
  }

  /** A separator, a tab counting as a space. */
  function Separate(l: Line, c: char): Line {
    if l.q == "" then l
    else
      var n := |l.q|;
      if c == ' ' && l.fs.None? then
        var q := if l.q[n - 1] == '.' then l.q[..n - 1] else l.q;
        Line(q + [' '], Some(|q|))
      else if l.q[n - 1] != c && l.fs != Some(n - 1) then Line(l.q + [c], l.fs)
      else l
  }

  /** One byte that does not end the line. */
  function Step(cfg: Config, l: Line, c: char): Line {
    if c == '\t' then Separate(l, ' ')
    else if c == ' ' || c == '.' then Separate(l, c)
    else if c != '\0' && (l.fs.Some? || Alnum(c) || c in cfg.allowed) then l.(q := l.q + [c])
    else l.(q := l.q + ['_'])
  }

  /** A finished line is dropped when it has no name or data, or exceeds the limits. */
  predicate Dropped(cfg: Config, l: Line) {
    l.q == "" || l.fs.None? || |l.q| > cfg.maxinplen - 1 || l.fs.value > cfg.maxmetriclen
  }

  /** What is routed: the text with its newline, and the offset of the first space. */
  datatype Routed = Routed(text: string, fs: nat)

  /** What a stream of bytes has produced. */
  datatype Scan = Scan(line: Line, lines: seq<Routed>, metrics: nat, discards: nat)

  const START := Scan(EMPTY, [], 0, 0)

  function Consume(cfg: Config, s: Scan, c: char): Scan {
    if !IsEnd(c) then s.(line := Step(cfg, s.line, c))
    else if Dropped(cfg, s.line) then Scan(EMPTY, s.lines, s.metrics, s.discards + 1)
    else Scan(EMPTY, s.lines + [Routed(s.line.q + "\n", s.line.fs.value)], s.metrics + 1, s.discards)
  }

  function ConsumeAll(cfg: Config, s: Scan, bytes: string): Scan
    decreases |bytes|
  {
    if bytes == "" then s else Consume(cfg, ConsumeAll(cfg, s, bytes[..|bytes| - 1]), bytes[|bytes| - 1])
  }

  lemma {:induction false} ConsumeAppend(cfg: Config, s: Scan, a: string, b: string)
    ensures ConsumeAll(cfg, s, a + b) == ConsumeAll(cfg, ConsumeAll(cfg, s, a), b)
    decreases |b|
  {
    if b == "" {
      assert a + b == a;
    } else {
      assert (a + b)[..|a + b| - 1] == a + b[..|b| - 1];
      ConsumeAppend(cfg, s, a, b[..|b| - 1]);
    }
  }

  lemma {:induction false} ConsumeOne(cfg: Config, s: Scan, a: string, c: char)
    ensures ConsumeAll(cfg, s, a + [c]) == Consume(cfg, ConsumeAll(cfg, s, a), c)
  {
    assert (a + [c])[..|a|] == a;
  }

  // ---------------------------------------------------------------------
  // Properties of the stream function
  // ---------------------------------------------------------------------

  function Ends(bytes: string): nat {
    if bytes == "" then 0 else Ends(bytes[..|bytes| - 1]) + if IsEnd(bytes[|bytes| - 1]) then 1 else 0
  }

  /** Every line terminator counts once, as a metric or as a discard. */
  lemma {:induction false} TerminatorsAreCounted(cfg: Config, s: Scan, bytes: string)
    ensures var r := ConsumeAll(cfg, s, bytes);
            && r.metrics + r.discards == s.metrics + s.discards + Ends(bytes)
            && |r.lines| - |s.lines| == r.metrics - s.metrics
    decreases |bytes|
  {
    if bytes != "" {
      TerminatorsAreCounted(cfg, s, bytes[..|bytes| - 1]);
    }
  }

  lemma {:induction false} LinesGrow(cfg: Config, s: Scan, bytes: string)
    ensures s.lines <= ConsumeAll(cfg, s, bytes).lines
    ensures Ends(bytes) == 0 ==> ConsumeAll(cfg, s, bytes).lines == s.lines
    decreases |bytes|
  {
    if bytes != "" {
      LinesGrow(cfg, s, bytes[..|bytes| - 1]);
    }
  }

  /** The same bytes, except that tabs may already have been turned into spaces. */
  ghost predicate SameBytes(a: string, b: string) {
    |a| == |b| && forall i :: 0 <= i < |a| ==> a[i] == b[i] || (b[i] == '\t' && a[i] == ' ')
  }

  lemma {:induction false} TabsAreSpaces(cfg: Config, s: Scan, a: string, b: string)
    requires SameBytes(a, b)
    ensures ConsumeAll(cfg, s, a) == ConsumeAll(cfg, s, b)
    decreases |a|
  {
    if a != "" {
      TabsAreSpaces(cfg, s, a[..|a| - 1], b[..|b| - 1]);
    }
  }

  // ---------------------------------------------------------------------
  // Normal form
  // ---------------------------------------------------------------------

  /** Characters a cleaned name can hold. */
  predicate NameChar(cfg: Config, c: char) {
    && c != ' ' && c != '\t' && c != '\0' && !IsEnd(c)
    && (c == '.' || c == '_' || Alnum(c) || c in cfg.allowed)
  }

  /** No leading dot, no two dots in a row, only permitted characters. */
  ghost predicate NameSoFar(cfg: Config, q: string) {
    && (q != "" ==> q[0] != '.')
    && (forall i :: 0 <= i < |q| ==> NameChar(cfg, q[i]))
    && (forall i :: 0 < i < |q| ==> !(q[i - 1] == '.' && q[i] == '.'))
  }

  ghost predicate CleanName(cfg: Config, q: string) {
    q != "" && NameSoFar(cfg, q) && q[|q| - 1] != '.'
  }

  /** Neither spaces nor dots repeat or open the data; no tab, NUL or terminator is left. */
  ghost predicate CleanData(d: string) {
    && (d != "" ==> d[0] != ' ' && d[0] != '.')
    && (forall i :: 0 <= i < |d| ==> d[i] != '\t' && d[i] != '\0' && !IsEnd(d[i]))
    && (forall i :: 0 < i < |d| ==> !(d[i - 1] == d[i] && (d[i] == ' ' || d[i] == '.')))
  }

  ghost predicate Clean(cfg: Config, l: Line) {
    match l.fs
    case None => NameSoFar(cfg, l.q)
    case Some(f) => f < |l.q| && CleanName(cfg, l.q[..f]) && l.q[f] == ' ' && CleanData(l.q[f + 1..])
  }

  /** The first space ends the name, and takes a trailing dot with it. */
  lemma {:induction false} NameEnds(cfg: Config, q: string)
    requires NameSoFar(cfg, q) && q != ""
    ensures CleanName(cfg, if q[|q| - 1] == '.' then q[..|q| - 1] else q)
  {
  }

  lemma {:induction false} NameGrows(cfg: Config, q: string, c: char)
    requires NameSoFar(cfg, q) && NameChar(cfg, c)
    requires c == '.' ==> q != "" && q[|q| - 1] != '.'
    ensures NameSoFar(cfg, q + [c])
  {
  }

  lemma {:induction false} SpaceEndsName(cfg: Config, q: string)
    requires NameSoFar(cfg, q) && q != ""
    ensures Clean(cfg, Separate(Line(q, None), ' '))
  {
    NameEnds(cfg, q);
    var name := if q[|q| - 1] == '.' then q[..|q| - 1] else q;
    var r := Separate(Line(q, None), ' ');
    assert r.q[..|name|] == name && r.q[|name| + 1..] == "";
  }

  lemma {:induction false} SeparateInData(cfg: Config, l: Line, c: char)
    requires l.fs.Some? && Clean(cfg, l) && (c == ' ' || c == '.')
    ensures Clean(cfg, Separate(l, c))
  {
    var r, f := Separate(l, c), l.fs.value;
    if r != l {
      var d := l.q[f + 1..];
      assert r.q[..f] == l.q[..f] && r.q[f + 1..] == d + [c];
      assert d != "" && d[|d| - 1] == l.q[|l.q| - 1];
      DataGrows(d, c);
    }
  }

  lemma {:induction false} SeparateKeepsClean(cfg: Config, l: Line, c: char)
    requires Clean(cfg, l) && (c == ' ' || c == '.')
    ensures Clean(cfg, Separate(l, c))
  {
    if l.fs.Some? {
      SeparateInData(cfg, l, c);
    } else if l.q != "" && c == ' ' {
      SpaceEndsName(cfg, l.q);
    } else if l.q != "" && l.q[|l.q| - 1] != '.' {
      NameGrows(cfg, l.q, c);
    }
  }

  lemma {:induction false} DataGrows(d: string, c: char)
    requires CleanData(d) && c != '\t' && c != '\0' && !IsEnd(c)
    requires c == ' ' || c == '.' ==> d != "" && d[|d| - 1] != c
    ensures CleanData(d + [c])
  {
  }

  lemma {:induction false} StepKeepsClean(cfg: Config, l: Line, c: char)
    requires Clean(cfg, l) && !IsEnd(c)
    ensures Clean(cfg, Step(cfg, l, c))
  {
    if c == '\t' {
      SeparateKeepsClean(cfg, l, ' ');
    } else if c == ' ' || c == '.' {
      SeparateKeepsClean(cfg, l, c);
    } else if l.fs.None? {
      NameGrows(cfg, l.q, Step(cfg, l, c).q[|l.q|]);
    } else {
      var r, f := Step(cfg, l, c), l.fs.value;
      assert r.q[..f] == l.q[..f];
      assert r.q[f + 1..] == l.q[f + 1..] + [r.q[|l.q|]];
      DataGrows(l.q[f + 1..], r.q[|l.q|]);
    }
  }

  /** What every routed line looks like. */
  ghost predicate NormalForm(cfg: Config, r: Routed) {
    && 0 < r.fs && r.fs + 2 <= |r.text|
    && CleanName(cfg, r.text[..r.fs]) && r.text[r.fs] == ' '
    && CleanData(r.text[r.fs + 1..|r.text| - 1]) && r.text[|r.text| - 1] == '\n'
    && |r.text| <= cfg.maxinplen && r.fs <= cfg.maxmetriclen
  }

  /** Main result, normal form: every line routed from any stream is in normal form. */
  lemma {:induction false} RoutedLinesAreClean(cfg: Config, s: Scan, bytes: string)
    requires Clean(cfg, s.line) && forall r :: r in s.lines ==> NormalForm(cfg, r)
    ensures var t := ConsumeAll(cfg, s, bytes);
            Clean(cfg, t.line) && forall r :: r in t.lines ==> NormalForm(cfg, r)
    decreases |bytes|
  {
    if bytes != "" {
      var m, c := ConsumeAll(cfg, s, bytes[..|bytes| - 1]), bytes[|bytes| - 1];
      RoutedLinesAreClean(cfg, s, bytes[..|bytes| - 1]);
      if !IsEnd(c) {
        StepKeepsClean(cfg, m.line, c);
      } else if !Dropped(cfg, m.line) {
        FinishedIsNormal(cfg, m.line);
      }
    }
  }

  lemma {:induction false} FinishedIsNormal(cfg: Config, l: Line)
    requires Clean(cfg, l) && !Dropped(cfg, l)
    ensures NormalForm(cfg, Routed(l.q + "\n", l.fs.value))
  {
    var f, text := l.fs.value, l.q + "\n";
    assert text[..f] == l.q[..f];
    assert text[f + 1..|text| - 1] == l.q[f + 1..];
  }

  /** The state in front of position `k` of a clean line. */
  ghost function Before(l: Line, k: nat): Line
    requires k <= |l.q|
  {
    Line(l.q[..k], if l.fs.Some? && l.fs.value < k then l.fs else None)
  }

  lemma {:induction false} RestepChar(cfg: Config, l: Line, k: nat)
    requires Clean(cfg, l) && l.fs.Some? && k < |l.q|
    ensures Consume(cfg, START.(line := Before(l, k)), l.q[k]) == START.(line := Before(l, k + 1))
  {
    var f, c := l.fs.value, l.q[k];
    assert l.q[..k + 1] == l.q[..k] + [c];
    if k < f {
      assert c == l.q[..f][k];
      assert k > 0 ==> l.q[k - 1] == l.q[..f][k - 1];
    } else if k == f {
      assert l.q[f - 1] == l.q[..f][f - 1];
    } else {
      var d := l.q[f + 1..];
      assert c == d[k - f - 1];
      assert k > f + 1 ==> l.q[k - 1] == d[k - f - 2];
    }
  }

  lemma {:induction false} Reclean(cfg: Config, l: Line, k: nat)
    requires Clean(cfg, l) && l.fs.Some? && k <= |l.q|
    ensures ConsumeAll(cfg, START, l.q[..k]) == START.(line := Before(l, k))
    decreases k
  {
    if k > 0 {
      Reclean(cfg, l, k - 1);
      RestepChar(cfg, l, k - 1);
      assert l.q[..k] == l.q[..k - 1] + [l.q[k - 1]];
      ConsumeOne(cfg, START, l.q[..k - 1], l.q[k - 1]);
    }
  }

  /** Main result, idempotence: feeding a routed line back routes exactly that line. */
  lemma {:induction false} CleansingIsIdempotent(cfg: Config, r: Routed)
    requires NormalForm(cfg, r)
    ensures ConsumeAll(cfg, START, r.text) == Scan(EMPTY, [r], 1, 0)
  {
    var l := Unfinished(cfg, r);
    Reclean(cfg, l, |l.q|);
    assert l.q[..|l.q|] == l.q;
    ConsumeOne(cfg, START, l.q, '\n');
  }

  /** A normal line without its newline is a clean line under construction. */
  lemma {:induction false} Unfinished(cfg: Config, r: Routed) returns (l: Line)
    requires NormalForm(cfg, r)
    ensures Clean(cfg, l) && !Dropped(cfg, l) && l.fs == Some(r.fs) && r.text == l.q + ['\n']
  {
    var n := |r.text| - 1;
    l := Line(r.text[..n], Some(r.fs));
    assert l.q[..r.fs] == r.text[..r.fs] && l.q[r.fs + 1..] == r.text[r.fs + 1..n];
  }
}
