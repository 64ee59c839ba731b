/**
 * Laws of template expansion (`router_rewrite_metric`) that do not depend on
 * how it is written down: what a change of case does to a text, what a number
 * refers to, and the template that gives a metric back.
 */
module RewriteLaws {
  import opened Common
  import opened Rewrite

  // ---------------------------------------------------------------------
  // Case
  // ---------------------------------------------------------------------

  predicate SmallLetter(c: char) { 'a' <= c <= 'z' }

  predicate CapitalLetter(c: char) { 'A' <= c <= 'Z' }

  /** The small and the capital form of one letter. */
  predicate Pair(small: char, capital: char) {
    SmallLetter(small) && CapitalLetter(capital) && small as int - 'a' as int == capital as int - 'A' as int
  }

  ghost predicate UpperOf(r: string, s: string) {
    && |r| == |s| && (forall c :: c in r ==> !SmallLetter(c))
    && forall i :: 0 <= i < |s| ==> r[i] == s[i] || Pair(s[i], r[i])
  }

  ghost predicate LowerOf(r: string, s: string) {
    && |r| == |s| && (forall c :: c in r ==> !CapitalLetter(c))
    && forall i :: 0 <= i < |s| ==> r[i] == s[i] || Pair(r[i], s[i])
  }

  /** `r` is `plain` with the dots of `s` replaced. */
  ghost predicate DotsReplaced(r: string, plain: string, s: string) {
    && |r| == |plain| == |s| && '.' !in r
    && forall i :: 0 <= i < |s| ==> (r[i] == '_' <==> s[i] == '.' || s[i] == '_') && (s[i] != '.' ==> r[i] == plain[i])
  }

  /** Main result: each of the six cases changes a text as its name says, and nothing else of it. */
  lemma {:induction false} CaseLaws(s: string)
    ensures Recase(Retain, s) == s
    ensures UpperOf(Recase(Upper, s), s) && LowerOf(Recase(Lower, s), s)
    ensures DotsReplaced(Recase(RetainDot, s), s, s)
    ensures DotsReplaced(Recase(UpperDot, s), Recase(Upper, s), s)
    ensures DotsReplaced(Recase(LowerDot, s), Recase(Lower, s), s)
  {
    RecaseRetain(s);
    forall k, c | c in Recase(k, s)
      ensures exists i :: 0 <= i < |s| && c == RecaseChar(k, s[i])
    {
      var i :| 0 <= i < |s| && Recase(k, s)[i] == c;
    }
  }

  /** Only one text is the upper case of a text, and only one the lower case. */
  lemma {:induction false} CaseIsUnique(r: string, q: string, s: string)
    ensures UpperOf(r, s) && UpperOf(q, s) ==> r == q
    ensures LowerOf(r, s) && LowerOf(q, s) ==> r == q
  {
    forall i | 0 <= i < |s| && |r| == |s| == |q|
      ensures UpperOf(r, s) && UpperOf(q, s) ==> r[i] == q[i]
      ensures LowerOf(r, s) && LowerOf(q, s) ==> r[i] == q[i]
    {
      assert r[i] in r && q[i] in q;
    }
  }

  /** The modifiers as they are written. */
  lemma {:induction false} ModifiersAsWritten(m: Match, k: Case)
    requires m.WellFormed() && Fits(m, m.Referenced(1))
    ensures var mod := match k case Retain => "" case Lower => "_" case Upper => "^"
                       case RetainDot => "." case LowerDot => "_." case UpperDot => "^.";
            Rewritten(m, "\\" + mod + "1") == Some(Result(m, Recase(k, m.Referenced(1))))
  {
    hide Rewritten, Recase, Match.Referenced, Fits;
    var items := [Ref(k, "1")];
    assert items[1..] == [];
    assert Print(items) == "\\" + Modifier(k) + "1" + "" == "\\" + Modifier(k) + "1";
    assert Value(0, "1") == 1;
    assert Meaning(m, items) == Recase(k, m.Referenced(1)) + "" == Recase(k, m.Referenced(1));
    SameLengthFits(m, Recase(k, m.Referenced(1)), m.Referenced(1));
    RewriteMeansTemplate(m, items);
  }

  lemma {:induction false} SameLengthFits(m: Match, a: string, b: string)
    requires m.WellFormed() && |a| == |b| && Fits(m, b)
    ensures Fits(m, a)
  {
  }

  /** The input `\^1` for "ab". */
  lemma {:induction false} UpperAb()
    ensures var m := Match("ab 1", 2, 1, [Span(0, 2), Span(0, 2)]);
            m.WellFormed() && Rewritten(m, "\\^1") == Some(("AB 1", 2))
  {
    var m := Match("ab 1", 2, 1, [Span(0, 2), Span(0, 2)]);
    assert m.Referenced(1) == "ab" && m.Data() == " 1" && m.Prefix() == "" == m.Suffix();
    assert Recase(Upper, "ab") == "AB" && "\\" + "^" + "1" == "\\^1";
    assert Result(m, "AB") == ("AB 1", 2) by {
      assert "" + "AB" + "" == "AB" && "AB" + " 1" == "AB 1";
    }
    hide Rewritten, Recase, Match.Referenced;
    ModifiersAsWritten(m, Upper);
  }

  // ---------------------------------------------------------------------
  // Numbers
  // ---------------------------------------------------------------------

  function DigitOf(n: nat): (c: char)
    requires n < 10
    ensures IsDigit(c) && Digit(c) == n
  {
    "0123456789"[n]
  }

  function Decimal(n: nat): (s: string)
    ensures s != "" && forall c :: c in s ==> IsDigit(c)
  {
    if n < 10 then [DigitOf(n)] else Decimal(n / 10) + [DigitOf(n % 10)]
  }

  lemma {:induction false} ValueSnoc(acc: nat, s: string, c: char)
    requires IsDigit(c) && forall d :: d in s ==> IsDigit(d)
    ensures forall d :: d in s + [c] ==> IsDigit(d)
    ensures Value(acc, s + [c]) == Value(acc, s) * 10 + Digit(c)
    decreases |s|
  {
    if s == "" {
      assert s + [c] == [c] && [c][1..] == "";
    } else {
      assert (s + [c])[1..] == s[1..] + [c];
      ValueSnoc(acc * 10 + Digit(s[0]), s[1..], c);
    }
  }

  /** A decimal number refers to the group of that number. */
  lemma {:induction false} ValueOfDecimal(n: nat)
    ensures Value(0, Decimal(n)) == n
    decreases n
  {
    if n >= 10 {
      ValueOfDecimal(n / 10);
      ValueSnoc(0, Decimal(n / 10), DigitOf(n % 10));
    } else {
      var c := DigitOf(n);
      assert [c][1..] == "";
    }
  }

  // ---------------------------------------------------------------------
  // The identity
  // ---------------------------------------------------------------------

  /** References to the groups from `i` to `n`. */
  function AllGroups(i: nat, n: nat): (items: seq<Item>)
    ensures GoodItems(items)
    decreases n + 1 - i
  {
    if i > n then [] else [Ref(Retain, Decimal(i))] + AllGroups(i + 1, n)
  }

  /** Groups 1 to `g` follow one another from the start of the match to its end. */
  ghost predicate Tiled(m: Match, g: nat)
    requires m.WellFormed()
  {
    && 1 <= g <= m.nmatch && m.pmatch[1].so == m.pmatch[0].so && m.pmatch[g].eo == m.pmatch[0].eo
    && (forall k :: 1 <= k <= g ==> m.pmatch[k].so >= 0)
    && forall k :: 1 <= k < g ==> m.pmatch[k].eo == m.pmatch[k + 1].so
  }

  lemma {:induction false} GroupsAreFaithful(n: nat, i: nat, g: nat, behind: Option<Case>)
    requires behind.None? || behind == Some(Retain)
    ensures Faithful(n, behind, AllGroups(i, g))
    decreases g + 1 - i
  {
    if i <= g {
      assert AllGroups(i, g)[1..] == AllGroups(i + 1, g);
      GroupsAreFaithful(n, i + 1, g, Some(Retain));
    }
  }

  lemma {:induction false} FirstGroup(m: Match, i: nat, g: nat)
    requires m.WellFormed()
    ensures Meaning(m, AllGroups(i, g)) == if i > g then "" else m.Referenced(i) + Meaning(m, AllGroups(i + 1, g))
  {
    hide Recase, Match.Referenced;
    if i <= g {
      assert AllGroups(i, g)[1..] == AllGroups(i + 1, g);
      ValueOfDecimal(i);
      RecaseRetain(m.Referenced(i));
    }
  }

  lemma {:induction false} TilesMeet(m: Match, i: nat, g: nat)
    requires m.WellFormed() && Tiled(m, g) && 1 <= i <= g
    ensures 0 <= m.pmatch[i].so <= m.pmatch[i].eo <= m.pmatch[0].eo
    ensures Meaning(m, AllGroups(i, g)) == m.metric[m.pmatch[i].so..m.pmatch[0].eo]
    decreases g - i
  {
    hide Meaning, AllGroups;
    FirstGroup(m, i, g);
    FirstGroup(m, i + 1, g);
    assert m.pmatch[i].so <= m.pmatch[i].eo;
    if i < g {
      TilesMeet(m, i + 1, g);
      var a, b, c := m.pmatch[i].so, m.pmatch[i].eo, m.pmatch[0].eo;
      assert m.metric[a..b] + m.metric[b..c] == m.metric[a..c];
    }
  }

  /**
   * Main result, round trip: the template that names all groups in order, for
   * a match they divide up, gives back the metric as it was.
   */
  lemma {:induction false} AllGroupsGiveItBack(m: Match, g: nat)
    requires m.WellFormed() && Tiled(m, g) && m.Data() != "" && |m.metric| < METRIC_BUFSIZ
    ensures Rewritten(m, Print(AllGroups(1, g))) == Some((m.metric, m.fs))
  {
    hide Rewritten, Print, Meaning, Faithful;
    var items := AllGroups(1, g);
    TilesMeet(m, 1, g);
    GroupsAreFaithful(m.nmatch, 1, g, None);
    var text := m.metric[m.pmatch[0].so..m.pmatch[0].eo];
    assert m.Prefix() + text + m.Suffix() == m.metric[..m.fs];
    assert m.metric[..m.fs] + m.Data() == m.metric;
    RewriteMeansTemplate(m, items);
  }
}
