/**
 * Rule patterns: the classifier that turns a regular expression into a cheap string comparison (`determine_if_regex`)
 * and the matcher that runs the outcome (`router_metric_matches`), against the meaning of the same pattern as a POSIX
 * extended regular expression.
 */
module Patterns {
  import opened Common

  datatype MatchType = MatchAll | Regex | Contains | StartsWith | EndsWith | Matches

  /** Size of the scratch buffer the literal is collected in. */
  const PATBUF := 8192

  // ---------------------------------------------------------------------
  // Section 9.4 of the POSIX.1-2017 Base Definitions, for expressions without
  // repetition, alternation, grouping or brackets
  // ---------------------------------------------------------------------

  datatype Atom = Chr(c: char) | AnyChar | Bol | Eol

  predicate EreSpecial(c: char) {
    c in ".[\\()*+?{|^$"
  }

  /** Reads a pattern as a concatenation; `None` when it is not one, or undefined. */
  function ParseEre(pat: string): Option<seq<Atom>> {
    if pat == "" then Some([])
    else if pat[0] == '\\' then
      if |pat| > 1 && EreSpecial(pat[1]) then Cons(Chr(pat[1]), ParseEre(pat[2..])) else None
    else if pat[0] == '^' then Cons(Bol, ParseEre(pat[1..]))
    else if pat[0] == '$' then Cons(Eol, ParseEre(pat[1..]))
    else if pat[0] == '.' then Cons(AnyChar, ParseEre(pat[1..]))
    else if EreSpecial(pat[0]) then None
    else Cons(Chr(pat[0]), ParseEre(pat[1..]))
  }

  function Cons(a: Atom, rest: Option<seq<Atom>>): Option<seq<Atom>> {
    if rest.Some? then Some([a] + rest.value) else None
  }

  /** The expression matches exactly `s[i..j]`. */
  ghost predicate Denotes(atoms: seq<Atom>, s: string, i: int, j: int)
    decreases |atoms|
  {
    0 <= i <= |s| &&
    if atoms == [] then i == j
    else match atoms[0]
      case Chr(c) => i < |s| && s[i] == c && Denotes(atoms[1..], s, i + 1, j)
      case AnyChar => i < |s| && Denotes(atoms[1..], s, i + 1, j)
      case Bol => i == 0 && Denotes(atoms[1..], s, i, j)
      case Eol => i == |s| && Denotes(atoms[1..], s, i, j)
  }

  /** The match an implementation must report: leftmost, then longest. */
  ghost predicate LeftmostLongest(atoms: seq<Atom>, s: string, m: Span) {
    && Denotes(atoms, s, m.so, m.eo)
    && (forall i, j :: Denotes(atoms, s, i, j) ==> m.so <= i)
    && (forall j :: Denotes(atoms, s, m.so, j) ==> j <= m.eo)
  }

  // ---------------------------------------------------------------------
  // determine_if_regex
  // ---------------------------------------------------------------------

  predicate Ordinary(c: char) {
    c == '_' || c == '-' || '0' <= c <= '9' || 'a' <= c <= 'z' || 'A' <= c <= 'Z'
  }

  lemma {:induction false} OrdinaryCharsAre(c: char)
    ensures Ordinary(c) <==> c in SMALL || c in CAPITAL || c in DIGITS || c == '_' || c == '-'
  {
    SmallLetters(c);
    CapitalLetters(c);
    DecimalDigits(c);
  }

  datatype Scan = Scan(kind: MatchType, escape: bool, lit: string)

  /** One turn of the classifier's switch; `last` says that a NUL follows. */
  function ScanChar(s: Scan, c: char, last: bool): Scan {
    var t :=
      if c == '\\' then Scan(s.kind, !s.escape, if s.escape then s.lit + [c] else s.lit)
      else if c in ".^*+" then Scan(if s.escape then s.kind else Regex, false, s.lit + [c])
      else if c == '$' then
        if !s.escape && last
        then Scan(if s.kind == StartsWith then Matches else EndsWith, false, s.lit)
        else Scan(Regex, false, s.lit)
      else if !s.escape && Ordinary(c) then Scan(s.kind, false, s.lit + [c])
      else Scan(Regex, false, s.lit);
    if |t.lit| == PATBUF then t.(kind := Regex) else t
  }

  /** The classifier from a state on, over the rest of the pattern. */
  function ScanRest(s: Scan, e: string): Scan
    decreases |e|
  {
    if e == "" || s.kind == Regex then s
    else ScanRest(ScanChar(s, e[0], |e| == 1), e[1..])
  }

  function Classify(pat: string): Scan {
    if pat != "" && pat[0] == '^'
    then ScanRest(Scan(StartsWith, false, ""), pat[1..])
    else ScanRest(Scan(Contains, false, ""), pat)
  }

  /** The loop of the source: a cursor over the pattern, writes into a fixed buffer. */
  method DetermineIfRegex(pat: string) returns (kind: MatchType, strmatch: Option<string>)
    requires '\0' !in pat
    ensures kind == Classify(pat).kind
    ensures strmatch == if kind == Regex then None else Some(Classify(pat).lit)
  {
    hide ScanChar;
    var patbuf := new char[PATBUF];
    var e, pb, escape := 0, 0, false;
    kind := Contains;
    if |pat| > 0 && pat[0] == '^' {
      e, kind := 1, StartsWith;
    }
    while e < |pat| && kind != Regex
      invariant 0 <= e <= |pat| && 0 <= pb <= PATBUF && (pb == PATBUF ==> kind == Regex)
      invariant kind != MatchAll
      invariant ScanRest(Scan(kind, escape, patbuf[..pb]), pat[e..]) == Classify(pat)
    {
      ScanStep(Scan(kind, escape, patbuf[..pb]), pat, e);
      kind, escape, pb := ScanOne(patbuf, kind, escape, pb, pat[e], e + 1 == |pat|);
      e := e + 1;
    }
    strmatch := if kind == Regex then None else Some(patbuf[..pb]);
  }

  lemma {:induction false} ScanStep(s: Scan, pat: string, e: nat)
    requires e < |pat| && s.kind != Regex
    ensures ScanRest(s, pat[e..]) == ScanRest(ScanChar(s, pat[e], e + 1 == |pat|), pat[e + 1..])
  {
    assert pat[e..][1..] == pat[e + 1..];
  }

  /** The switch on one character of the pattern. */
  method ScanOne(patbuf: array<char>, kind0: MatchType, escape0: bool, pb0: nat, c: char, last: bool)
    returns (kind: MatchType, escape: bool, pb: nat)
    requires patbuf.Length == PATBUF && pb0 < PATBUF && kind0 != MatchAll
    modifies patbuf
    ensures pb <= PATBUF && (pb == PATBUF ==> kind == Regex) && kind != MatchAll
    ensures Scan(kind, escape, patbuf[..pb]) == ScanChar(Scan(kind0, escape0, old(patbuf[..pb0])), c, last)
  {
    kind, escape, pb := kind0, false, pb0;
    if c == '\\' {
      if escape0 {
        patbuf[pb] := c;
        pb := pb + 1;
      }
      escape := !escape0;
    } else if c == '.' || c == '^' || c == '*' || c == '+' {
      if !escape0 {
        kind := Regex;
      }
      patbuf[pb] := c;
      pb := pb + 1;
    } else if c == '$' {
      if !escape0 && last {
        kind := if kind == StartsWith then Matches else EndsWith;
      } else {
        kind := Regex;
      }
    } else if !escape0 && Ordinary(c) {
      patbuf[pb] := c;
      pb := pb + 1;
    } else {
      kind := Regex;
    }
    if pb == PATBUF {
      kind := Regex;
    }
  }

  // ---------------------------------------------------------------------
  // router_metric_matches, the string cases
  // ---------------------------------------------------------------------

  /** `strstr`: the offset of the first occurrence. */
  function StrStr(hay: string, needle: string): (r: Option<nat>)
    ensures r.Some? ==> OccursAt(needle, hay, r.value)
    ensures r.Some? ==> forall i :: OccursAt(needle, hay, i) ==> r.value <= i
    ensures r.None? ==> !Substring(needle, hay)
  {
    StrStrFrom(hay, needle, 0)
  }

  function StrStrFrom(hay: string, needle: string, k: nat): (r: Option<nat>)
    requires k <= |hay| + 1
    ensures r.Some? ==> k <= r.value && OccursAt(needle, hay, r.value)
    ensures r.Some? ==> forall i :: k <= i && OccursAt(needle, hay, i) ==> r.value <= i
    ensures r.None? ==> forall i :: k <= i ==> !OccursAt(needle, hay, i)
    decreases |hay| + 1 - k
  {
    if k + |needle| > |hay| then None
    else if hay[k..k + |needle|] == needle then Some(k)
    else StrStrFrom(hay, needle, k + 1)
  }

  /**
   * A metric in memory: the bytes in front of it, its name, and what follows
   * the name (a delimiter first).  The matcher is handed pointers into this.
   */
  datatype Memory = Memory(before: string, name: string, after: string)

  predicate HasPrefix(s: string, p: string) {
    |p| <= |s| && s[..|p|] == p
  }

  function MatchString(kind: MatchType, lit: string, m: Memory): Option<Span> {
    match kind
    case Contains =>
      var t := StrStr(m.name, lit);
      if t.Some? then Some(Span(t.value, t.value + |lit|)) else None
    case StartsWith =>
      // strncmp does not stop at the delimiter
      if HasPrefix(m.name + m.after, lit) then Some(Span(0, |lit|)) else None
    case EndsWith =>
      // the comparison starts |lit| bytes before the delimiter, wherever that is
      var mem := m.before + m.name;
      if |lit| <= |mem| && mem[|mem| - |lit|..] == lit
      then Some(Span(|m.name| - |lit|, |m.name|)) else None
    case Matches => if m.name == lit then Some(Span(0, |lit|)) else None
    case MatchAll => None
    case Regex => None
  }

  /** Characters a literal can hold. */
  predicate LiteralChar(c: char) {
    Ordinary(c) || c in "\\.^*+"
  }

  /** The name ends at a delimiter no literal contains. */
  predicate Delimited(m: Memory) {
    m.after != "" && !LiteralChar(m.after[0])
  }

  // ---------------------------------------------------------------------
  // The classifier keeps the meaning of the pattern
  // ---------------------------------------------------------------------

  function TrailingBackslashes(pat: string): nat {
    if pat == "" || pat[|pat| - 1] != '\\' then 0 else 1 + TrailingBackslashes(pat[..|pat| - 1])
  }

  ghost function Chars(s: string): (a: seq<Atom>)
    ensures |a| == |s| && forall k :: 0 <= k < |s| ==> a[k] == Chr(s[k])
  {
    seq(|s|, i requires 0 <= i < |s| => Chr(s[i]))
  }

  /** What the rest of a pattern must look like for the scan to end unclassified as REGEX. */
  ghost predicate ReadsAs(s: Scan, e: string, r: Scan) {
    var atoms := ParseEre(if s.escape then "\\" + e else e);
    && s.lit <= r.lit
    && (forall k :: |s.lit| <= k < |r.lit| ==> LiteralChar(r.lit[k]))
    && (r.escape ==> atoms.None?)
    && (!r.escape ==>
          && atoms.Some?
          && atoms.value == Chars(r.lit[|s.lit|..]) + if r.kind in {EndsWith, Matches} then [Eol] else [])
    && (if s.kind == Contains then r.kind in {Contains, EndsWith} else r.kind in {StartsWith, Matches})
  }

  lemma {:induction false} ScanReads(s: Scan, e: string)
    requires s.kind == Contains || s.kind == StartsWith
    requires ScanRest(s, e).kind != Regex
    ensures ReadsAs(s, e, ScanRest(s, e))
    decreases |e|
  {
    var r := ScanRest(s, e);
    if e == "" {
      assert r.lit[|s.lit|..] == "";
    } else {
      var t := ScanChar(s, e[0], |e| == 1);
      if e[0] == '$' {
        assert e == "$" && e[1..] == "";
        assert r == ScanRest(t, e[1..]) == t;
        assert ParseEre(e[1..]) == Some([]);
        assert r.lit[|s.lit|..] == "";
      } else {
        ScanReads(t, e[1..]);
        if e[0] == '\\' && !s.escape {
          assert "\\" + e[1..] == e;
        } else {
          ReadsChar(s, e, t, r);
        }
      }
    }
  }

  lemma {:induction false} ParsesChar(escape: bool, e: string)
    requires e != "" && if escape then EreSpecial(e[0]) else Ordinary(e[0])
    ensures ParseEre(if escape then "\\" + e else e) == Cons(Chr(e[0]), ParseEre(e[1..]))
  {
    if escape {
      assert ("\\" + e)[2..] == e[1..];
    }
  }

  /** A character that goes into the literal stands for itself. */
  lemma {:induction false} ReadsChar(s: Scan, e: string, t: Scan, r: Scan)
    requires e != "" && t == Scan(s.kind, false, s.lit + [e[0]]) && LiteralChar(e[0])
    requires if s.escape then EreSpecial(e[0]) else Ordinary(e[0])
    requires ReadsAs(t, e[1..], r)
    ensures ReadsAs(s, e, r)
  {
    hide ParseEre, EreSpecial, Ordinary;
    var l := r.lit[|s.lit|..];
    assert r.lit[|s.lit|] == t.lit[|s.lit|] == e[0];
    assert l == [e[0]] + r.lit[|t.lit|..];
    assert Chars(l) == [Chr(e[0])] + Chars(r.lit[|t.lit|..]);
    ParsesChar(s.escape, e);
  }

  lemma {:induction false} DenotesChars(l: string, rest: seq<Atom>, s: string, i: int, j: int)
    ensures Denotes(Chars(l) + rest, s, i, j) <==>
            OccursAt(l, s, i) && Denotes(rest, s, i + |l|, j)
    decreases |l|
  {
    if l == "" {
      assert Chars(l) + rest == rest;
    } else {
      var atoms := Chars(l) + rest;
      assert atoms[1..] == Chars(l[1..]) + rest;
      DenotesChars(l[1..], rest, s, i + 1, j);
      if 0 <= i < |s| && s[i] == l[0] {
        if OccursAt(l[1..], s, i + 1) {
          assert s[i..i + |l|] == [s[i]] + s[i + 1..i + |l|];
        }
        if OccursAt(l, s, i) {
          assert s[i + 1..i + |l|] == s[i..i + |l|][1..];
        }
      }
    }
  }

  ghost function AtomsOf(kind: MatchType, lit: string): seq<Atom> {
    (if kind == StartsWith || kind == Matches then [Bol] else []) + Chars(lit) +
    (if kind == EndsWith || kind == Matches then [Eol] else [])
  }

  /** Which spans the pattern denotes, by kind. */
  lemma {:induction false} DenotesByKind(kind: MatchType, lit: string, s: string, i: int, j: int)
    requires kind in {Contains, StartsWith, EndsWith, Matches}
    ensures Denotes(AtomsOf(kind, lit), s, i, j) <==>
            && OccursAt(lit, s, i) && j == i + |lit|
            && (kind in {StartsWith, Matches} ==> i == 0)
            && (kind in {EndsWith, Matches} ==> j == |s|)
  {
    var tail := if kind == EndsWith || kind == Matches then [Eol] else [];
    var body := Chars(lit) + tail;
    DenotesChars(lit, tail, s, i, j);
    var atoms := AtomsOf(kind, lit);
    if kind == StartsWith || kind == Matches {
      assert atoms[0] == Bol && atoms[1..] == body;
    } else {
      assert atoms == body;
    }
    if tail == [Eol] {
      assert tail[1..] == [];
    }
  }

  /**
   * A pattern that is not left to the regex engine reads as an expression of
   * this fragment exactly when it does not end in an unpaired backslash.
   */
  lemma {:induction false} ClassifiedPatternParses(pat: string)
    requires Classify(pat).kind != Regex
    ensures ParseEre(pat).Some? <==> TrailingBackslashes(pat) % 2 == 0
    ensures ParseEre(pat).Some? ==> ParseEre(pat).value == AtomsOf(Classify(pat).kind, Classify(pat).lit)
    ensures Classify(pat).kind != MatchAll
    ensures forall c :: c in Classify(pat).lit ==> LiteralChar(c)
  {
    var r := Classify(pat);
    var anchored := pat != "" && pat[0] == '^';
    var s0 := Scan(if anchored then StartsWith else Contains, false, "");
    var rest := if anchored then pat[1..] else pat;
    ScanReads(s0, rest);
    EscapeIsParity(s0, rest);
    assert r.lit[0..] == r.lit;
    if anchored {
      TrailingBackslashesSuffix(pat);
    }
    if ParseEre(rest).Some? {
      var body := Chars(r.lit) + if r.kind in {EndsWith, Matches} then [Eol] else [];
      assert AtomsOf(r.kind, r.lit) == if anchored then [Bol] + body else body;
    }
  }

  lemma {:induction false} TrailingBackslashesSuffix(pat: string)
    requires pat != "" && pat[0] != '\\'
    ensures TrailingBackslashes(pat[1..]) == TrailingBackslashes(pat)
  {
    if |pat| > 1 && pat[|pat| - 1] == '\\' {
      assert pat[1..][..|pat| - 2] == pat[..|pat| - 1][1..];
      TrailingBackslashesSuffix(pat[..|pat| - 1]);
    }
  }

  lemma {:induction false} TrailingBackslashesPair(pat: string)
    requires |pat| > 1 && pat[0] == '\\'
    ensures TrailingBackslashes(pat[2..]) % 2 == TrailingBackslashes(pat) % 2
  {
    if |pat| == 2 {
      assert pat[..1] == "\\" && pat[..1][..0] == "";
    } else if pat[|pat| - 1] == '\\' {
      assert pat[2..][..|pat| - 3] == pat[..|pat| - 1][2..];
      TrailingBackslashesPair(pat[..|pat| - 1]);
    }
  }

  /** The scan ends inside an escape exactly when a backslash is left unpaired. */
  lemma {:induction false} EscapeIsParity(s: Scan, e: string)
    requires s.kind == Contains || s.kind == StartsWith
    requires ScanRest(s, e).kind != Regex
    ensures ScanRest(s, e).escape <==>
            TrailingBackslashes(if s.escape then "\\" + e else e) % 2 == 1
    decreases |e|
  {
    if e == "" {
      assert s.escape ==> ("\\" + e)[..0] == "";
    } else {
      var t := ScanChar(s, e[0], |e| == 1);
      if e[0] == '$' {
        assert e == "$" && e[1..] == "";
        assert ScanRest(s, e) == ScanRest(t, e[1..]);
      } else {
        EscapeIsParity(t, e[1..]);
        if s.escape {
          var full := "\\" + e;
          assert full[2..] == e[1..];
          TrailingBackslashesPair(full);
        } else if e[0] == '\\' {
          assert "\\" + e[1..] == e;
        } else {
          TrailingBackslashesSuffix(e);
        }
      }
    }
  }

  /** The string matcher reports exactly the spans of its kind. */
  lemma {:induction false} MatchStringByKind(kind: MatchType, lit: string, m: Memory)
    requires kind in {Contains, StartsWith, EndsWith, Matches}
    requires forall c :: c in lit ==> LiteralChar(c)
    requires Delimited(m)
    requires kind == EndsWith ==> |lit| <= |m.name|
    ensures var atoms := AtomsOf(kind, lit);
            var r := MatchString(kind, lit, m);
            && (r.Some? ==> LeftmostLongest(atoms, m.name, r.value))
            && (r.None? ==> forall i, j :: !Denotes(atoms, m.name, i, j))
  {
    var atoms := AtomsOf(kind, lit);
    forall i, j
      ensures Denotes(atoms, m.name, i, j) <==>
              && OccursAt(lit, m.name, i) && j == i + |lit|
              && (kind in {StartsWith, Matches} ==> i == 0)
              && (kind in {EndsWith, Matches} ==> j == |m.name|)
    {
      DenotesByKind(kind, lit, m.name, i, j);
    }
    match kind
    case Contains =>
    case StartsWith =>
      PrefixStaysInName(lit, m);
    case EndsWith =>
      var mem := m.before + m.name;
      assert mem[|mem| - |lit|..] == m.name[|m.name| - |lit|..];
      assert m.name[|m.name| - |lit|..|m.name|] == m.name[|m.name| - |lit|..];
    case Matches =>
      assert m.name[0..|m.name|] == m.name;
  }

  lemma {:induction false} PrefixStaysInName(lit: string, m: Memory)
    requires forall c :: c in lit ==> LiteralChar(c)
    requires Delimited(m)
    ensures HasPrefix(m.name + m.after, lit) <==> OccursAt(lit, m.name, 0)
  {
    var mem := m.name + m.after;
    assert forall k :: 0 <= k < |lit| ==> LiteralChar(lit[k]);
    assert mem[|m.name|] == m.after[0];
    assert HasPrefix(mem, lit) ==> forall k :: 0 <= k < |lit| ==> mem[k] == lit[k];
    if |lit| <= |m.name| {
      assert mem[..|lit|] == m.name[..|lit|];
      assert m.name[0..|lit|] == m.name[..|lit|];
    }
  }

  /**
   * Main result: string matching gives the verdict and the leftmost span of
   * the pattern read as an extended regular expression.
   */
  lemma {:induction false} StringMatchIsRegexMatch(pat: string, m: Memory)
    requires Classify(pat).kind != Regex
    requires TrailingBackslashes(pat) % 2 == 0
    requires Delimited(m)
    requires Classify(pat).kind == EndsWith ==> |Classify(pat).lit| <= |m.name|
    ensures ParseEre(pat).Some?
    ensures var atoms := ParseEre(pat).value;
            var r := MatchString(Classify(pat).kind, Classify(pat).lit, m);
            && (r.Some? ==> LeftmostLongest(atoms, m.name, r.value))
            && (r.None? ==> forall i, j :: !Denotes(atoms, m.name, i, j))
  {
    ClassifiedPatternParses(pat);
    MatchStringByKind(Classify(pat).kind, Classify(pat).lit, m);
  }

  /**
   * For names shorter than the literal the ENDS_WITH comparison reads the
   * bytes in front of the name.  It then departs from the expression exactly
   * when those bytes complete the literal.
   */
  lemma {:induction false} EndsWithOnShortNames(lit: string, m: Memory)
    requires |m.name| < |lit|
    ensures forall i, j :: !Denotes(AtomsOf(EndsWith, lit), m.name, i, j)
    ensures MatchString(EndsWith, lit, m).Some? <==>
            |lit| - |m.name| <= |m.before| &&
            m.before[|m.before| - (|lit| - |m.name|)..] + m.name == lit
  {
    forall i, j ensures !Denotes(AtomsOf(EndsWith, lit), m.name, i, j) {
      DenotesByKind(EndsWith, lit, m.name, i, j);
    }
    var mem := m.before + m.name;
    if |lit| <= |mem| {
      assert mem[|mem| - |lit|..] == m.before[|m.before| - (|lit| - |m.name|)..] + m.name;
    }
  }

  /** The pattern `ab$` is a plain one that ends with "ab". */
  lemma {:induction false} ClassifiedAb()
    ensures Classify("ab$") == Scan(EndsWith, false, "ab") && TrailingBackslashes("ab$") == 0
  {
    var s := Scan(Contains, false, "");
    assert "ab$"[1..] == "b$" && "b$"[1..] == "$" && "$"[1..] == "";
    assert ScanChar(s, 'a', false) == Scan(Contains, false, "a") &&
           ScanChar(Scan(Contains, false, "a"), 'b', false).lit == "ab";
    assert ScanRest(s, "ab$") == ScanRest(Scan(Contains, false, "a"), "b$");
    assert ScanRest(Scan(Contains, false, "a"), "b$") == ScanRest(Scan(Contains, false, "ab"), "$");
    assert ScanRest(Scan(Contains, false, "ab"), "$") == ScanRest(Scan(EndsWith, false, "ab"), "");
  }

  /** Such a pattern on the name "b" behind a byte 'a': the code finds a match where the expression has none. */
  lemma {:induction false} EndsWithReadsInFront(pat: string, m: Memory)
    requires Classify(pat).kind == EndsWith && Classify(pat).lit == "ab" && TrailingBackslashes(pat) % 2 == 0
    requires m.before == "a" && m.name == "b"
    ensures ParseEre(pat).Some? && MatchString(EndsWith, "ab", m).Some?
    ensures forall i, j :: !Denotes(ParseEre(pat).value, m.name, i, j)
  {
    hide Classify, ParseEre, Denotes, AtomsOf, MatchString, TrailingBackslashes;
    ClassifiedPatternParses(pat);
    EndsWithOnShortNames("ab", m);
    assert m.before[0..] + m.name == "ab";
  }
}
