/**
 * Tail literals: the run of letters the optimiser extracts from the end of a
 * rule's pattern, and the reversed search a group performs for it in a name.
 */
module Tails {
  import opened Common
  import opened Patterns

  /** Size of the buffer the tail is copied to, its terminating NUL included. */
  const PBLOCK := 64

  predicate TailChar(c: char) {
    'a' <= c <= 'z' || 'A' <= c <= 'Z' || c == '_'
  }

  lemma {:induction false} TailCharsAre(c: char)
    ensures TailChar(c) <==> c in SMALL || c in CAPITAL || c == '_'
  {
    SmallLetters(c);
    CapitalLetters(c);
  }

  /** C string indexing: the terminating NUL is at index `|s|`. */
  function At(s: string, p: nat): char
    requires p <= |s|
  {
    if p == |s| then '\0' else s[p]
  }

  /** Steps left over backslashes; the flag is the parity of how many. */
  function SkipEscapes(pat: string, p: nat, esc: bool): (r: (nat, bool))
    requires p < |pat|
    ensures r.0 <= p && forall i :: r.0 < i <= p ==> pat[i] == '\\'
  {
    if p > 0 && pat[p] == '\\' then SkipEscapes(pat, p - 1, !esc) else (p, esc)
  }

  /** Skips, from the right, what cannot be part of a tail; parenthesised parts whole. */
  function Strip(pat: string, p: nat, depth: int): (r: nat)
    requires p <= |pat|
    ensures r <= p
    ensures r > 0 ==> TailChar(At(pat, r))
    decreases p
  {
    if p > 0 && (depth != 0 || !TailChar(At(pat, p))) then
      var c := At(pat, p);
      if c == ')' || c == '(' then
        var (q, esc) := SkipEscapes(pat, p - 1, false);
        Strip(pat, q, if esc then depth else if c == ')' then depth + 1 else depth - 1)
      else Strip(pat, p - 1, depth)
    else p
  }

  /** What stands behind the place where stripping ends is no tail character. */
  lemma {:induction false} StripStops(pat: string, p: nat, depth: int)
    requires p <= |pat|
    ensures var r := Strip(pat, p, depth); 0 < r < p ==> !TailChar(At(pat, r + 1))
    decreases p
  {
    if p > 0 && (depth != 0 || !TailChar(At(pat, p))) {
      var c := At(pat, p);
      if c == ')' || c == '(' {
        var (q, esc) := SkipEscapes(pat, p - 1, false);
        StripStops(pat, q, if esc then depth else if c == ')' then depth + 1 else depth - 1);
      } else {
        StripStops(pat, p - 1, depth);
      }
    }
  }

  // ---------------------------------------------------------------------
  // Parentheses, read from the left
  // ---------------------------------------------------------------------

  /** How many backslashes stand right in front of `i`. */
  function Backslashes(pat: string, i: nat): (n: nat)
    requires i <= |pat|
    ensures n <= i
  {
    if i > 0 && pat[i - 1] == '\\' then Backslashes(pat, i - 1) + 1 else 0
  }

  /** An odd number of backslashes takes the character behind them literally. */
  predicate Escaped(pat: string, i: nat)
    requires i <= |pat|
  {
    Backslashes(pat, i) % 2 == 1
  }

  function Nesting(pat: string, i: nat): int
    requires i < |pat|
  {
    if Escaped(pat, i) then 0 else if pat[i] == '(' then 1 else if pat[i] == ')' then -1 else 0
  }

  /** How many parentheses opened in front of `i` are open there; negative if more were closed. */
  function Depth(pat: string, i: nat): int
    requires i <= |pat|
  {
    if i == 0 then 0 else Depth(pat, i - 1) + Nesting(pat, i - 1)
  }

  /** A tail character outside every pair of parentheses: as deep as the end of the pattern. */
  ghost predicate Outside(pat: string, i: int) {
    0 <= i < |pat| && TailChar(pat[i]) && Depth(pat, i) == Depth(pat, |pat|)
  }

  lemma {:induction false} OneMoreBackslash(n: nat)
    ensures (n + 1) % 2 == 1 <==> n % 2 != 1
  {
  }

  /** Skipping the backslashes in front of a parenthesis tells its escape by parity, and passes no nesting. */
  lemma {:induction false} SkippedEscapes(pat: string, p: nat, esc: bool)
    requires p < |pat|
    ensures var (q, e) := SkipEscapes(pat, p, esc);
            && Depth(pat, p + 1) == Depth(pat, q + 1)
            && (q > 0 ==> e == (esc != Escaped(pat, p + 1)))
            && forall i :: q < i <= p ==> !TailChar(pat[i])
    decreases p
  {
    if p > 0 && pat[p] == '\\' {
      SkippedEscapes(pat, p - 1, !esc);
      assert Backslashes(pat, p + 1) == Backslashes(pat, p) + 1;
      OneMoreBackslash(Backslashes(pat, p));
    }
  }

  /**
   * Counted from the right as the loop does or from the left, the depth is the
   * same: stripping ends at the last tail character outside parentheses.
   */
  lemma {:induction false} StripIsOutside(pat: string, p: nat, depth: int)
    requires p <= |pat| && '\0' !in pat
    requires depth == if p == |pat| then 0 else Depth(pat, p + 1) - Depth(pat, |pat|)
    ensures var r := Strip(pat, p, depth);
            (r > 0 ==> Outside(pat, r)) && forall i :: r < i <= p ==> !Outside(pat, i)
    decreases p
  {
    hide Escaped, SkipEscapes;
    if p > 0 && (depth != 0 || !TailChar(At(pat, p))) {
      var c := At(pat, p);
      assert p < |pat| ==> Depth(pat, p + 1) == Depth(pat, p) + Nesting(pat, p);
      if c == ')' || c == '(' {
        SkippedEscapes(pat, p - 1, false);
        var (q, esc) := SkipEscapes(pat, p - 1, false);
        if q > 0 {
          StripIsOutside(pat, q, if esc then depth else if c == ')' then depth + 1 else depth - 1);
        }
      } else {
        StripIsOutside(pat, p - 1, depth);
      }
    }
  }

  /** The run of tail characters that ends right before `p`, read backwards. */
  function RunBefore(pat: string, p: nat): (r: string)
    requires p <= |pat|
    ensures |r| <= p && forall k :: 0 <= k < |r| ==> r[k] == pat[p - 1 - k] && TailChar(r[k])
    ensures |r| < p ==> !TailChar(pat[p - 1 - |r|])
  {
    if p > 0 && TailChar(pat[p - 1]) then [pat[p - 1]] + RunBefore(pat, p - 1) else ""
  }

  datatype Tail = Unusable | TooSmall(run: string) | Tail(reversed: string)

  function TailOf(pat: string): Tail {
    var p := Strip(pat, |pat|, 0);
    if p == 0 then Unusable
    else
      assert p < |pat|;
      var run := RunBefore(pat, p + 1);
      if |run| < 3 then TooSmall(run) else Tail(run)
  }

  /** The copy and its NUL stay inside the buffer exactly when this holds, as `ExtractTail` says. */
  predicate TailFits(pat: string) {
    match TailOf(pat)
    case Tail(run) => |run| < PBLOCK
    case TooSmall(_) => true
    case Unusable => true
  }

  function CharSum(s: string): nat {
    if s == "" then 0 else CharSum(s[..|s| - 1]) + s[|s| - 1] as nat
  }

  lemma {:induction false} CharSumStep(s: string, b: nat)
    requires b < |s|
    ensures CharSum(s[..b + 1]) == CharSum(s[..b]) + s[b] as nat
  {
    assert s[..b + 1][..b] == s[..b];
  }

  lemma {:induction false} NoSum(s: string)
    ensures CharSum(s[..0]) == 0
  {
  }

  /** The first scanning loop of the optimiser: the last tail character outside parentheses, or none. */
  method StripPattern(pat: string) returns (p: nat)
    requires '\0' !in pat
    ensures p == Strip(pat, |pat|, 0) && p <= |pat|
    ensures p > 0 ==> Outside(pat, p)
    ensures forall i :: p < i < |pat| ==> !Outside(pat, i)
  {
    StripIsOutside(pat, |pat|, 0);
    var depth := 0;
    p := |pat|;
    while p > 0 && (depth != 0 || !TailChar(At(pat, p)))
      invariant p <= |pat|
      invariant Strip(pat, p, depth) == Strip(pat, |pat|, 0)
      decreases p
    {
      var c := At(pat, p);
      p := p - 1;
      if c == ')' || c == '(' {
        var esc := false;
        ghost var from := p;
        while p > 0 && pat[p] == '\\'
          invariant p <= from
          invariant SkipEscapes(pat, p, esc) == SkipEscapes(pat, from, false)
        {
          esc := !esc;
          p := p - 1;
        }
        if !esc {
          depth := if c == ')' then depth + 1 else depth - 1;
        }
      }
    }
  }

  /**
   * The second loop: copies the run backwards into a fixed buffer, summing it up; its NUL may come to
   * stand behind that.
   */
  method CopyRun(pat: string, last: nat) returns (run: string, hash: nat, overrun: bool)
    requires last < |pat|
    ensures var all := RunBefore(pat, last + 1);
            run == (if |all| < PBLOCK then all else all[..PBLOCK]) && (overrun <==> |all| >= PBLOCK)
    ensures hash == CharSum(run)
  {
    hide TailChar, CharSum;
    var pblock := new char[PBLOCK];
    var p: int, b := last, 0;
    hash := 0;
    ghost var all := RunBefore(pat, last + 1);
    NoSum(all);
    while p >= 0 && b < PBLOCK && TailChar(pat[p])
      invariant p == last - b && -1 <= p
      invariant b <= |all| && b <= PBLOCK && pblock[..b] == all[..b]
      invariant RunBefore(pat, p + 1) == all[b..]
      invariant hash == CharSum(all[..b])
    {
      assert all[b] == pat[p];
      CharSumStep(all, b);
      hash := hash + pat[p] as nat;
      pblock[b] := pat[p];
      b, p := b + 1, p - 1;
    }
    assert all[..|all|] == all;
    run := pblock[..b];
    overrun := b == PBLOCK;
    if !overrun {
      pblock[b] := '\0';
    }
  }

  /** The tail, unless the NUL is written behind the buffer, which happens exactly for tails that do not fit. */
  method ExtractTail(pat: string) returns (t: Tail, hash: nat, overrun: bool)
    requires '\0' !in pat
    ensures overrun <==> !TailFits(pat)
    ensures !overrun ==> t == TailOf(pat) && (t.Tail? ==> hash == CharSum(t.reversed))
  {
    var p := StripPattern(pat);
    if p == 0 {
      return Unusable, 0, false;
    }
    var run;
    run, hash, overrun := CopyRun(pat, p);
    t := if |run| < 3 then TooSmall(run) else Tail(run);
  }

  function Reverse(s: string): (r: string)
    ensures |r| == |s| && forall k :: 0 <= k < |s| ==> r[k] == s[|s| - 1 - k]
  {
    seq(|s|, i requires 0 <= i < |s| => s[|s| - 1 - i])
  }

  // ---------------------------------------------------------------------
  // The reversed search of a group
  // ---------------------------------------------------------------------

  /** A pattern of letters only is its own tail. */
  lemma {:induction false} WordIsItsTail(pat: string)
    requires |pat| >= 3 && forall c :: c in pat ==> TailChar(c)
    ensures TailOf(pat) == Tail(Reverse(pat))
  {
    var n := |pat|;
    assert !TailChar(At(pat, n)) && At(pat, n - 1) == pat[n - 1];
    assert Strip(pat, n, 0) == Strip(pat, n - 1, 0) == n - 1;
    assert forall k :: 0 <= k < n ==> pat[k] in pat;
  }

  /** Sixty-four letters are too many for the buffer. */
  lemma {:induction false} LongWordsOverrun(pat: string)
    requires |pat| >= 3 && forall c :: c in pat ==> TailChar(c)
    ensures TailFits(pat) <==> |pat| < PBLOCK
  {
    WordIsItsTail(pat);
  }

  lemma {:induction false} SixtyFourLettersOverrun()
    ensures !TailFits(seq(64, _ => 'a')) && TailFits(seq(63, _ => 'a'))
  {
    LongWordsOverrun(seq(64, _ => 'a'));
    LongWordsOverrun(seq(63, _ => 'a'));
  }

  lemma {:induction false} ReversedOccurrence(tail: string, name: string, i: int)
    ensures OccursAt(Reverse(tail), name, i) <==>
            0 <= i && i + |tail| <= |name| && forall k :: 0 <= k < |tail| ==> tail[k] == name[i + |tail| - 1 - k]
  {
    if OccursAt(Reverse(tail), name, i) {
      forall k | 0 <= k < |tail| ensures tail[k] == name[i + |tail| - 1 - k] {
        assert name[i..i + |tail|][|tail| - 1 - k] == Reverse(tail)[|tail| - 1 - k];
      }
    }
  }

  /**
   * The nested loops that look for the group's reversed tail from the end of
   * the name.  On a nonempty name they accept exactly the names that contain
   * the tail; on an empty one the outer loop leaves its cursor undefined.
   */
  method GroupAccepts(name: string, tail: string) returns (accepts: bool)
    requires name != ""
    ensures accepts <==> Substring(Reverse(tail), name)
  {
    var p, q := |name| - 1, 0;
    while p >= 0
      invariant -1 <= p < |name|
      invariant q <= |tail|
      invariant p < |name| - 1 ==> q < |tail|
      invariant forall i :: p < i + |tail| - 1 ==> !OccursAt(Reverse(tail), name, i)
    {
      var t := p;
      q := 0;
      while q < |tail| && t >= 0 && tail[q] == name[t]
        invariant 0 <= q <= |tail| && t == p - q && t >= -1
        invariant forall k :: 0 <= k < q ==> tail[k] == name[p - k]
      {
        q, t := q + 1, t - 1;
      }
      ghost var i := p + 1 - |tail|;
      ReversedOccurrence(tail, name, i);
      if q == |tail| {
        break;
      }
      p := p - 1;
    }
    accepts := q == |tail|;
  }

  // ---------------------------------------------------------------------
  // A tail occurs in every name its rule can match
  // ---------------------------------------------------------------------

  lemma {:induction false} TailStandsInPattern(pat: string)
    requires TailOf(pat).Tail?
    ensures Substring(Reverse(TailOf(pat).reversed), pat)
    ensures exists k, n :: TailRun(pat, k, n) && Maximal(pat, k, n) && pat[k..k + n] == Reverse(TailOf(pat).reversed)
  {
    var rev := TailOf(pat).reversed;
    var p := Strip(pat, |pat|, 0);
    StripStops(pat, |pat|, 0);
    var k := p + 1 - |rev|;
    assert pat[k..k + |rev|] == Reverse(rev);
    assert OccursAt(Reverse(rev), pat, k);
    assert TailRun(pat, k, |rev|);
  }

  /** The run cannot be made longer on either side. */
  ghost predicate Maximal(e: string, k: int, n: int) {
    0 <= k && 0 <= n && k + n <= |e| && (k == 0 || !TailChar(e[k - 1])) && (k + n == |e| || !TailChar(e[k + n]))
  }

  ghost predicate TailRun(e: string, k: int, n: int) {
    0 <= k && 0 < n && k + n <= |e| && forall i :: k <= i < k + n ==> TailChar(e[i])
  }

  /** The run that is the tail: outside parentheses, not to be extended, and nothing outside parentheses behind it. */
  ghost predicate LastRun(pat: string, k: int, n: int) {
    && TailRun(pat, k, n) && Maximal(pat, k, n)
    && (forall i :: k <= i < k + n ==> Outside(pat, i))
    && (forall i :: k + n <= i < |pat| ==> !Outside(pat, i))
  }

  lemma {:induction false} RunIsOutside(pat: string, k: int, n: int)
    requires TailRun(pat, k, n) && Outside(pat, k + n - 1)
    ensures forall i :: k <= i < k + n ==> Outside(pat, i)
    decreases n
  {
    if n > 1 {
      assert Depth(pat, k + n - 1) == Depth(pat, k + n - 2) + Nesting(pat, k + n - 2);
      RunIsOutside(pat, k, n - 1);
    }
  }

  lemma {:induction false} RunBeforeIsRun(pat: string, p: nat)
    requires p <= |pat|
    ensures var n := |RunBefore(pat, p)|;
            && (n > 0 ==> TailRun(pat, p - n, n)) && (n < p ==> !TailChar(pat[p - n - 1]))
            && Reverse(pat[p - n..p]) == RunBefore(pat, p)
  {
    var run := RunBefore(pat, p);
    forall i | p - |run| <= i < p ensures TailChar(pat[i]) {
      assert run[p - 1 - i] == pat[i];
    }
  }

  lemma {:induction false} LastRunEnds(pat: string, k: int, n: int)
    requires LastRun(pat, k, n) && '\0' !in pat && n >= 2
    ensures Strip(pat, |pat|, 0) == k + n - 1 && RunBefore(pat, k + n) == Reverse(pat[k..k + n])
  {
    StripIsOutside(pat, |pat|, 0);
    var r := Strip(pat, |pat|, 0);
    assert Outside(pat, k + n - 1);
    assert r > 0 ==> Outside(pat, r);
    RunBeforeIsRun(pat, k + n);
  }

  /**
   * Main result: the tail of any pattern, regular expressions included, is the
   * last run of tail characters outside parentheses, if it has three and more.
   */
  lemma {:induction false} TailIsLastRun(pat: string)
    requires '\0' !in pat
    ensures TailOf(pat).Tail? <==> exists k, n :: LastRun(pat, k, n) && n >= 3
    ensures forall k, n :: LastRun(pat, k, n) && n >= 3 ==> TailOf(pat) == Tail(Reverse(pat[k..k + n]))
    ensures TailOf(pat).Unusable? <==> forall i :: 0 < i < |pat| ==> !Outside(pat, i)
  {
    hide Depth, Reverse, Strip, RunBefore, TailChar;
    StripIsOutside(pat, |pat|, 0);
    var p := Strip(pat, |pat|, 0);
    if TailOf(pat).Tail? {
      StripStops(pat, |pat|, 0);
      var n := |TailOf(pat).reversed|;
      var k := p + 1 - n;
      RunBeforeIsRun(pat, p + 1);
      RunIsOutside(pat, k, n);
      assert LastRun(pat, k, n);
    }
    forall k, n | LastRun(pat, k, n) && n >= 3 ensures TailOf(pat) == Tail(Reverse(pat[k..k + n])) {
      LastRunEnds(pat, k, n);
      assert |Reverse(pat[k..k + n])| == n;
    }
  }

  /** Parentheses at the end are passed over as a whole. */
  lemma {:induction false} AlternativesAreNoTail()
    ensures TailOf("foo(bar|baz)") == Tail("oof")
  {
    var pat := "foo(bar|baz)";
    hide TailOf, Depth;
    DepthOfAlternatives();
    assert |pat| == 12 && pat[3] == '(' && TailRun(pat, 0, 3) && Maximal(pat, 0, 3);
    assert forall i :: 0 <= i < 3 ==> Outside(pat, i);
    forall i | 3 <= i < 12 ensures !Outside(pat, i) {
      assert i > 3 ==> Depth(pat, i) == 1;
    }
    assert LastRun(pat, 0, 3);
    TailIsLastRun(pat);
    assert Reverse(pat[0..3]) == "oof";
  }

  lemma {:induction false} DepthOfAlternatives()
    ensures var pat := "foo(bar|baz)";
            && (forall i :: 0 <= i <= 3 ==> Depth(pat, i) == 0) && (forall i :: 4 <= i <= 11 ==> Depth(pat, i) == 1)
            && Depth(pat, 12) == 0
  {
    var pat := "foo(bar|baz)";
    assert Depth(pat, 0) == 0 && Depth(pat, 1) == 0 && Depth(pat, 2) == 0 && Depth(pat, 3) == 0;
    assert Depth(pat, 4) == 1;
    assert Depth(pat, 5) == 1 && Depth(pat, 6) == 1 && Depth(pat, 7) == 1;
    assert Depth(pat, 8) == 1 && Depth(pat, 9) == 1 && Depth(pat, 10) == 1 && Depth(pat, 11) == 1;
    assert Depth(pat, 12) == 0;
  }

  /** Scanning on only ever extends the literal. */
  lemma {:induction false} LiteralGrows(s: Scan, e: string)
    ensures s.lit <= ScanRest(s, e).lit
    decreases |e|
  {
    if e != "" && s.kind != Regex {
      LiteralGrows(ScanChar(s, e[0], |e| == 1), e[1..]);
    }
  }

  lemma {:induction false} LetterIsCopied(s: Scan, c: char, last: bool)
    requires TailChar(c) && ScanChar(s, c, last).kind != Regex
    ensures ScanChar(s, c, last).lit == s.lit + [c]
  {
  }

  lemma {:induction false} LeadingRun(s: Scan, e: string, n: int)
    requires TailRun(e, 0, n) && s.kind != Regex && ScanRest(s, e).kind != Regex
    ensures s.lit + e[..n] <= ScanRest(s, e).lit
    decreases |e|
  {
    hide ScanChar;
    var t := ScanChar(s, e[0], |e| == 1);
    assert t.kind != Regex;
    LetterIsCopied(s, e[0], |e| == 1);
    if n == 1 {
      LiteralGrows(t, e[1..]);
      assert e[..1] == [e[0]];
    } else {
      LeadingRun(t, e[1..], n - 1);
      assert s.lit + e[..n] == t.lit + e[1..][..n - 1];
    }
  }

  lemma {:induction false} RunReachesLiteral(s: Scan, e: string, k: int, n: int)
    requires TailRun(e, k, n)
    requires ScanRest(s, e).kind != Regex
    ensures Substring(e[k..k + n], ScanRest(s, e).lit)
    decreases |e|
  {
    hide ScanChar;
    var r := ScanRest(s, e);
    if k > 0 {
      RunReachesLiteral(ScanChar(s, e[0], |e| == 1), e[1..], k - 1, n);
      assert e[1..][k - 1..k - 1 + n] == e[k..k + n];
    } else {
      LeadingRun(s, e, n);
      var got := s.lit + e[..n];
      assert r.lit[..|got|] == got;
      assert r.lit[|s.lit|..|got|] == got[|s.lit|..] == e[k..k + n];
      assert OccursAt(e[k..k + n], r.lit, |s.lit|);
    }
  }

  lemma {:induction false} TailStandsInLiteral(pat: string)
    requires Classify(pat).kind != Regex && TailOf(pat).Tail?
    ensures Substring(Reverse(TailOf(pat).reversed), Classify(pat).lit)
  {
    hide TailOf, Reverse, ScanRest;
    TailStandsInPattern(pat);
    var k, n :| TailRun(pat, k, n) && Maximal(pat, k, n) && pat[k..k + n] == Reverse(TailOf(pat).reversed);
    hide Maximal;
    if pat[0] == '^' {
      assert pat[1..][k - 1..k - 1 + n] == pat[k..k + n];
      RunReachesLiteral(Scan(StartsWith, false, ""), pat[1..], k - 1, n);
    } else {
      RunReachesLiteral(Scan(Contains, false, ""), pat, k, n);
    }
  }

  /** A string match that stays inside the name finds the whole literal there. */
  lemma {:induction false} MatchedLiteralStandsInName(kind: MatchType, lit: string, m: Memory)
    requires MatchString(kind, lit, m).Some?
    requires kind == StartsWith ==> Delimited(m) && forall c :: c in lit ==> LiteralChar(c)
    requires kind == EndsWith ==> |lit| <= |m.name|
    ensures Substring(lit, m.name)
  {
    match kind
    case Contains =>
    case StartsWith =>
      PrefixStaysInName(lit, m);
    case EndsWith =>
      var mem := m.before + m.name;
      assert mem[|mem| - |lit|..] == m.name[|m.name| - |lit|..|m.name|];
      assert OccursAt(lit, m.name, |m.name| - |lit|);
    case Matches =>
      assert OccursAt(lit, m.name, 0);
  }

  /**
   * Main result: the tail extracted from a plain string rule occurs in every
   * name the rule matches, so the group's search never hides the rule.
   */
  lemma {:induction false} PlainRuleMatchesOnlyNamesWithItsTail(pat: string, m: Memory)
    requires Classify(pat).kind != Regex && TailOf(pat).Tail?
    requires Delimited(m)
    requires Classify(pat).kind == EndsWith ==> |Classify(pat).lit| <= |m.name|
    requires MatchString(Classify(pat).kind, Classify(pat).lit, m).Some?
    ensures Substring(Reverse(TailOf(pat).reversed), m.name)
  {
    ClassifiedPatternParses(pat);
    TailStandsInLiteral(pat);
    MatchedLiteralStandsInName(Classify(pat).kind, Classify(pat).lit, m);
    SubstringTransitive(Reverse(TailOf(pat).reversed), Classify(pat).lit, m.name);
  }
}
