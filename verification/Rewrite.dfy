/**
 * Template expansion (`router_rewrite_metric`): a character machine with an
 * escape state that writes into a fixed buffer, against the reading of a
 * template as a list of literal characters and case-changing references.
 */
module Rewrite {
  import opened Common

  datatype Case = Retain | Lower | Upper | RetainDot | LowerDot | UpperDot

  function ToLower(c: char): char {
    if 'A' <= c <= 'Z' then c - 'A' + 'a' else c
  }

  function ToUpper(c: char): char {
    if 'a' <= c <= 'z' then c - 'a' + 'A' else c
  }

  function RecaseChar(k: Case, c: char): char {
    if k in {RetainDot, LowerDot, UpperDot} && c == '.' then '_'
    else if k in {Lower, LowerDot} then ToLower(c)
    else if k in {Upper, UpperDot} then ToUpper(c)
    else c
  }

  function Recase(k: Case, s: string): (r: string)
    ensures |r| == |s|
  {
    seq(|s|, i requires 0 <= i < |s| => RecaseChar(k, s[i]))
  }

  /** What the expansion reads: the metric, and the spans of its match. */
  datatype Match = Match(metric: string, fs: nat, nmatch: nat, pmatch: seq<Span>) {
    /** Spans lie inside the name; slot `nmatch` is readable, as the code consults it. */
    predicate WellFormed() {
      && fs <= |metric|
      && nmatch < |pmatch|
      && 0 <= pmatch[0].so <= pmatch[0].eo <= fs
      && (forall k :: 0 < k <= nmatch && pmatch[k].so >= 0 ==> pmatch[k].so <= pmatch[k].eo <= fs)
    }

    /** The text a reference stands for, before any case change. */
    function Referenced(ref: nat): string
      requires WellFormed()
    {
      if 0 < ref <= nmatch && pmatch[ref].so >= 0 then metric[pmatch[ref].so..pmatch[ref].eo] else ""
    }

    function Prefix(): string
      requires WellFormed()
    {
      metric[..pmatch[0].so]
    }

    function Suffix(): string
      requires WellFormed()
    {
      metric[pmatch[0].eo..fs]
    }

    function Data(): string
      requires WellFormed()
    {
      metric[fs..]
    }
  }

  // ---------------------------------------------------------------------
  // The character machine
  // ---------------------------------------------------------------------

  datatype Machine = Machine(out: string, escape: nat, ref: nat, rcase: Case)

  /** Appends when it fits; what does not fit is silently skipped. */
  function Put(out: string, piece: string): string {
    if |out| + |piece| < METRIC_BUFSIZ then out + piece else out
  }

  function Modified(k: Case, c: char): Option<Case> {
    if k == Retain && c == '_' then Some(Lower)
    else if k == Retain && c == '^' then Some(Upper)
    else if c == '.' then Some(if k == Lower then LowerDot else if k == Upper then UpperDot else RetainDot)
    else None
  }

  predicate IsDigit(c: char) {
    '0' <= c <= '9'
  }

  function Digit(c: char): nat
    requires IsDigit(c)
  {
    (c - '0') as nat
  }

  function Step(m: Match, s: Machine, c: char): Machine
    requires m.WellFormed()
  {
    if c == '\\' && s.escape == 0 then Machine(s.out, 1, s.ref, Retain)
    else if s.escape == 1 && Modified(s.rcase, c).Some? then s.(rcase := Modified(s.rcase, c).value)
    else if s.escape > 0 && IsDigit(c) then s.(escape := 2, ref := s.ref * 10 + Digit(c))
    else
      var flushed := if s.escape > 0
                     then s.(out := Put(s.out, Recase(s.rcase, m.Referenced(s.ref))), ref := 0) else s;
      if c != '\\' then Machine(Put(flushed.out, [c]), 0, flushed.ref, Retain) else flushed
  }

  function Steps(m: Match, s: Machine, t: string): Machine
    requires m.WellFormed()
    decreases |t|
  {
    if t == "" then s else Steps(m, Step(m, s, t[0]), t[1..])
  }

  /** The whole call: the new text and the offset of its first space, or no room. */
  function Rewritten(m: Match, replacement: string): (r: Option<(string, nat)>)
    requires m.WellFormed()
    ensures r.Some? ==> r.value.1 <= |r.value.0| < METRIC_BUFSIZ && r.value.0[r.value.1..] == m.Data()
  {
    if |m.Prefix()| >= METRIC_BUFSIZ then None
    else
      var out := Steps(m, Machine(m.Prefix(), 0, 0, Retain), replacement + "\0").out;
      if out == "" then None
      else
        var name := out[..|out| - 1] + m.Suffix();
        if |name| < METRIC_BUFSIZ && |name| + |m.Data()| < METRIC_BUFSIZ
        then Some((name + m.Data(), |name|)) else None
  }

  // ---------------------------------------------------------------------
  // The loops of the source, writing through a cursor into the buffer
  // ---------------------------------------------------------------------

  /** Copies `src[q..t]` to the buffer from `s` on, changing case. */
  method CopyCased(buf: array<char>, s: nat, src: string, q: nat, t: nat, k: Case) returns (s': nat)
    requires q <= t <= |src| && s + (t - q) <= buf.Length
    modifies buf
    ensures s' == s + (t - q)
    ensures buf[..s'] == old(buf[..s]) + Recase(k, src[q..t])
  {
    var i := q;
    s' := s;
    while i < t
      invariant q <= i <= t && s' == s + (i - q)
      invariant buf[..s'] == old(buf[..s]) + Recase(k, src[q..i])
    {
      buf[s'] := RecaseChar(k, src[i]);
      assert Recase(k, src[q..i + 1]) == Recase(k, src[q..i]) + [RecaseChar(k, src[i])];
      i, s' := i + 1, s' + 1;
    }
  }

  lemma {:induction false} RecaseRetain(s: string)
    ensures Recase(Retain, s) == s
  {
  }

  /** Runs the template over the buffer; every write is bounds checked. */
  method Expand(m: Match, replacement: string, buf: array<char>, start: nat) returns (s: nat)
    requires m.WellFormed() && '\0' !in replacement
    requires buf.Length == METRIC_BUFSIZ && start < METRIC_BUFSIZ
    modifies buf
    ensures 0 < s < METRIC_BUFSIZ
    ensures buf[..s] == Steps(m, Machine(old(buf[..start]), 0, 0, Retain), replacement + "\0").out
  {
    var tmpl := replacement + "\0";
    var p, escape, rcase := 0, 0, Retain;
    var ref: nat := 0;
    s := start;
    ghost var goal := Steps(m, Machine(buf[..s], 0, 0, Retain), tmpl);
    while p < |tmpl|
      invariant p <= |tmpl| && s < METRIC_BUFSIZ
      invariant p == |tmpl| ==> s > 0
      invariant Steps(m, Machine(buf[..s], escape, ref, rcase), tmpl[p..]) == goal
    {
      var c := tmpl[p];
      ghost var was := Machine(buf[..s], escape, ref, rcase);
      if c == '\\' && escape == 0 {
        escape, rcase := 1, Retain;
      } else if escape == 1 && Modified(rcase, c).Some? {
        rcase := Modified(rcase, c).value;
      } else if escape > 0 && IsDigit(c) {
        escape, ref := 2, ref * 10 + Digit(c);
      } else {
        if escape > 0 {
          if 0 < ref <= m.nmatch && m.pmatch[ref].so >= 0 {
            var q, t := m.pmatch[ref].so, m.pmatch[ref].eo;
            if s + (t - q) < METRIC_BUFSIZ {
              s := CopyCased(buf, s, m.metric, q, t, rcase);
            }
          }
          ref := 0;
        }
        if c != '\\' {
          escape, rcase := 0, Retain;
          if s + 1 < METRIC_BUFSIZ {
            buf[s] := c;
            s := s + 1;
          }
        }
      }
      assert Machine(buf[..s], escape, ref, rcase) == Step(m, was, c);
      assert tmpl[p..][0] == c && tmpl[p..][1..] == tmpl[p + 1..];
      p := p + 1;
    }
  }

  method RewriteMetric(m: Match, replacement: string) returns (r: Option<(string, nat)>)
    requires m.WellFormed() && '\0' !in replacement
    ensures r == Rewritten(m, replacement)
  {
    var buf := new char[METRIC_BUFSIZ];
    if m.pmatch[0].so >= METRIC_BUFSIZ {
      return None;
    }
    RecaseRetain(m.Prefix());
    RecaseRetain(m.Suffix());
    RecaseRetain(m.Data());
    var s := CopyCased(buf, 0, m.metric, 0, m.pmatch[0].so, Retain);
    assert buf[..s] == m.Prefix();
    s := Expand(m, replacement, buf, s);
    ghost var out := buf[..s];
    s := s - 1;
    assert buf[..s] == out[..|out| - 1];
    if s + (m.fs - m.pmatch[0].eo) >= METRIC_BUFSIZ {
      return None;
    }
    s := CopyCased(buf, s, m.metric, m.pmatch[0].eo, m.fs, Retain);
    var newfirstspace := s;
    if s + (|m.metric| - m.fs) >= METRIC_BUFSIZ {
      return None;
    }
    assert m.metric[m.fs..|m.metric|] == m.Data();
    s := CopyCased(buf, s, m.metric, m.fs, |m.metric|, Retain);
    r := Some((buf[..s], newfirstspace));
    buf[s] := '\0';
  }

  // ---------------------------------------------------------------------
  // Templates as the documentation describes them
  // ---------------------------------------------------------------------

  datatype Item = Lit(c: char) | Ref(k: Case, digits: string)

  function Modifier(k: Case): string {
    match k
    case Retain => ""
    case Lower => "_"
    case Upper => "^"
    case RetainDot => "."
    case LowerDot => "_."
    case UpperDot => "^."
  }

  function PrintItem(i: Item): string {
    match i
    case Lit(c) => [c]
    case Ref(k, digits) => "\\" + Modifier(k) + digits
  }

  function Print(items: seq<Item>): string {
    if items == [] then "" else PrintItem(items[0]) + Print(items[1..])
  }

  function Value(acc: nat, digits: string): nat
    requires forall c :: c in digits ==> IsDigit(c)
    decreases |digits|
  {
    if digits == "" then acc else Value(acc * 10 + Digit(digits[0]), digits[1..])
  }

  predicate GoodItem(i: Item) {
    match i
    case Lit(c) => c != '\\' && c != '\0'
    case Ref(_, digits) => digits != "" && forall c :: c in digits ==> IsDigit(c)
  }

  predicate GoodItems(items: seq<Item>) {
    forall i :: 0 <= i < |items| ==> GoodItem(items[i])
  }

  function ItemMeaning(m: Match, i: Item): string
    requires m.WellFormed() && GoodItem(i)
  {
    match i
    case Lit(c) => [c]
    case Ref(k, digits) => Recase(k, m.Referenced(Value(0, digits)))
  }

  function Meaning(m: Match, items: seq<Item>): string
    requires m.WellFormed() && GoodItems(items)
  {
    if items == [] then "" else ItemMeaning(m, items[0]) + Meaning(m, items[1..])
  }

  lemma {:induction false} StepsDigits(m: Match, s: Machine, digits: string, rest: string)
    requires m.WellFormed() && s.escape > 0 && forall c :: c in digits ==> IsDigit(c)
    ensures Steps(m, s, digits + rest) ==
            Steps(m, if digits == "" then s else s.(escape := 2, ref := Value(s.ref, digits)), rest)
    decreases |digits|
  {
    if digits == "" {
      assert digits + rest == rest;
    } else {
      hide Recase, Match.Referenced;
      assert (digits + rest)[1..] == digits[1..] + rest && digits[0] in digits;
      var next := s.(escape := 2, ref := s.ref * 10 + Digit(digits[0]));
      assert Step(m, s, digits[0]) == next;
      StepsDigits(m, next, digits[1..], rest);
    }
  }

  lemma {:induction false} StepsModifier(m: Match, out: string, k: Case, rest: string)
    requires m.WellFormed()
    ensures Steps(m, Machine(out, 1, 0, Retain), Modifier(k) + rest) == Steps(m, Machine(out, 1, 0, k), rest)
  {
    var t := Modifier(k) + rest;
    if |Modifier(k)| == 0 {
      assert t == rest;
    } else if |Modifier(k)| == 1 {
      assert t[1..] == rest;
    } else {
      assert t[1..] == "." + rest && t[1..][1..] == rest;
    }
  }

  /** Reading a reference leaves it pending until the next character decides its end. */
  lemma {:induction false} StepsRef(m: Match, out: string, k: Case, digits: string, rest: string)
    requires m.WellFormed() && GoodItem(Ref(k, digits))
    ensures Steps(m, Machine(out, 0, 0, Retain), "\\" + Modifier(k) + digits + rest) ==
            Steps(m, Machine(out, 2, Value(0, digits), k), rest)
  {
    var t := "\\" + Modifier(k) + digits + rest;
    assert t[1..] == Modifier(k) + (digits + rest);
    StepsModifier(m, out, k, digits + rest);
    StepsDigits(m, Machine(out, 1, 0, k), digits, rest);
  }

  /** A pending reference: what was read but not yet written. */
  function PendingText(m: Match, pending: Option<(nat, Case)>): string
    requires m.WellFormed()
  {
    if pending.None? then "" else Recase(pending.value.1, m.Referenced(pending.value.0))
  }

  function State(out: string, pending: Option<(nat, Case)>): Machine {
    if pending.None? then Machine(out, 0, 0, Retain)
    else Machine(out, 2, pending.value.0, pending.value.1)
  }

  // ---------------------------------------------------------------------
  // What the code makes of any list of items
  // ---------------------------------------------------------------------

  /**
   * The text the code produces, a pending reference first. A digit behind a
   * reference belongs to its number; an unmodified reference behind another
   * takes over its case; a modified one is printed as it stands in the template.
   */
  function CodeText(m: Match, pending: Option<(nat, Case)>, items: seq<Item>): string
    requires m.WellFormed() && GoodItems(items)
    decreases |items|
  {
    if items == [] then PendingText(m, pending)
    else match items[0]
      case Lit(c) =>
        if pending.Some? && IsDigit(c)
        then CodeText(m, Some((pending.value.0 * 10 + Digit(c), pending.value.1)), items[1..])
        else PendingText(m, pending) + [c] + CodeText(m, None, items[1..])
      case Ref(k, digits) =>
        if pending.None? then CodeText(m, Some((Value(0, digits), k)), items[1..])
        else if k == Retain
        then PendingText(m, pending) + CodeText(m, Some((Value(0, digits), pending.value.1)), items[1..])
        else PendingText(m, pending) + (Modifier(k) + digits) + CodeText(m, None, items[1..])
  }

  /** Characters that are no backslash are copied. */
  lemma {:induction false} StepsText(m: Match, out: string, text: string, rest: string)
    requires m.WellFormed() && '\\' !in text && |out| + |text| < METRIC_BUFSIZ
    ensures Steps(m, Machine(out, 0, 0, Retain), text + rest) == Steps(m, Machine(out + text, 0, 0, Retain), rest)
    decreases |text|
  {
    if text == "" {
      assert text + rest == rest && out + text == out;
    } else {
      assert (text + rest)[1..] == text[1..] + rest;
      assert out + [text[0]] + text[1..] == out + text;
      StepsText(m, out + [text[0]], text[1..], rest);
    }
  }

  lemma {:induction false} PrintedText(k: Case, digits: string)
    requires GoodItem(Ref(k, digits)) && k != Retain
    ensures var text := Modifier(k) + digits;
            text != "" && text[0] in ['_', '^', '.'] && forall i :: 0 <= i < |text| ==> text[i] != '\\'
  {
    forall i | 0 <= i < |digits| ensures digits[i] != '\\' {
      assert digits[i] in digits;
    }
  }

  lemma {:induction false} PrintedStart(m: Match, out: string, k0: Case, c: char)
    requires m.WellFormed() && c in ['_', '^', '.'] && |out| + 1 < METRIC_BUFSIZ
    ensures Step(m, Machine(out, 2, 0, k0), c) == Machine(out + [c], 0, 0, Retain)
  {
    assert m.Referenced(0) == "" && out + "" == out;
  }

  /** A modified reference behind a pending one: neither modifier nor digits are read as such. */
  lemma {:induction false} StepsPrinted(m: Match, out: string, k0: Case, k: Case, digits: string, rest: string)
    requires m.WellFormed() && GoodItem(Ref(k, digits)) && k != Retain &&
             |out| + |Modifier(k) + digits| + 1 < METRIC_BUFSIZ
    ensures Steps(m, Machine(out, 2, 0, k0), Modifier(k) + digits + rest) ==
            Steps(m, Machine(out + (Modifier(k) + digits), 0, 0, Retain), rest)
  {
    PrintedText(k, digits);
    var text := Modifier(k) + digits;
    hide Modifier, Step;
    var t := text + rest;
    assert t[0] == text[0] && t[1..] == text[1..] + rest;
    PrintedStart(m, out, k0, t[0]);
    StepsText(m, out + [text[0]], text[1..], rest);
    assert out + [text[0]] + text[1..] == out + text;
  }

  /** A backslash writes what is pending and keeps its case. */
  lemma {:induction false} StepsFlush(m: Match, out: string, pending: (nat, Case), rest: string)
    requires m.WellFormed() && |out| + |PendingText(m, Some(pending))| < METRIC_BUFSIZ
    ensures Steps(m, State(out, Some(pending)), "\\" + rest) ==
            Steps(m, Machine(out + PendingText(m, Some(pending)), 2, 0, pending.1), rest)
  {
    assert ("\\" + rest)[1..] == rest;
  }

  lemma {:induction false} StepsLit(m: Match, out: string, pending: Option<(nat, Case)>, c: char, rest: string)
    requires m.WellFormed() && GoodItem(Lit(c)) && !(pending.Some? && IsDigit(c))
    requires |out| + |PendingText(m, pending)| + 1 < METRIC_BUFSIZ
    ensures Steps(m, State(out, pending), [c] + rest) ==
            Steps(m, State(out + (PendingText(m, pending) + [c]), None), rest)
  {
    hide Recase, Match.Referenced;
    var p := PendingText(m, pending);
    assert ([c] + rest)[1..] == rest && out + p + [c] == out + (p + [c]);
    assert pending.None? ==> out + p == out;
  }

  /** The machine on a printed template, from any pending state. */
  lemma {:induction false} StepsItems(m: Match, out: string, pending: Option<(nat, Case)>, items: seq<Item>)
    requires m.WellFormed() && GoodItems(items)
    requires |out| + |CodeText(m, pending, items)| + 1 < METRIC_BUFSIZ
    ensures Steps(m, State(out, pending), Print(items) + "\0").out == out + CodeText(m, pending, items) + "\0"
    decreases |items|
  {
    hide Steps, Step, Recase, Value, Match.Referenced;
    if items == [] {
      StepsNul(m, out, pending);
      assert Print(items) + "\0" == "\0";
    } else {
      var rest := Print(items[1..]) + "\0";
      assert Print(items) + "\0" == PrintItem(items[0]) + rest;
      match items[0] {
        case Lit(c) => StepsItemsLit(m, out, pending, items, c);
        case Ref(k, digits) =>
          if pending.None? {
            StepsRef(m, out, k, digits, rest);
            StepsItems(m, out, Some((Value(0, digits), k)), items[1..]);
          } else if k == Retain {
            StepsItemsRef(m, out, pending.value, items, digits);
          } else {
            StepsItemsPrinted(m, out, pending.value, items, k, digits);
          }
      }
    }
  }

  lemma {:induction false} StepsItemsRef(m: Match, out: string, pending: (nat, Case), items: seq<Item>, digits: string)
    requires m.WellFormed() && GoodItems(items) && items != [] && items[0] == Ref(Retain, digits)
    requires |out| + |CodeText(m, Some(pending), items)| + 1 < METRIC_BUFSIZ
    ensures Steps(m, State(out, Some(pending)), PrintItem(items[0]) + (Print(items[1..]) + "\0")).out ==
            out + CodeText(m, Some(pending), items) + "\0"
    decreases |items|, 0
  {
    hide Steps, Step, Recase, Value, Match.Referenced;
    var rest, p, next := Print(items[1..]) + "\0", PendingText(m, Some(pending)), (Value(0, digits), pending.1);
    assert PrintItem(items[0]) + rest == "\\" + (digits + rest);
    StepsFlush(m, out, pending, digits + rest);
    StepsDigits(m, Machine(out + p, 2, 0, pending.1), digits, rest);
    StepsItems(m, out + p, Some(next), items[1..]);
    Regroup(out, p, CodeText(m, Some(next), items[1..]), "\0");
  }

  lemma {:induction false} StepsItemsPrinted(m: Match, out: string, pending: (nat, Case), items: seq<Item>, k: Case,
                                             digits: string)
    requires m.WellFormed() && GoodItems(items) && items != [] && items[0] == Ref(k, digits) && k != Retain
    requires |out| + |CodeText(m, Some(pending), items)| + 1 < METRIC_BUFSIZ
    ensures Steps(m, State(out, Some(pending)), PrintItem(items[0]) + (Print(items[1..]) + "\0")).out ==
            out + CodeText(m, Some(pending), items) + "\0"
    decreases |items|, 0
  {
    hide Steps, Step, Recase, Value, Match.Referenced, Modifier, Print;
    var rest, p, text := Print(items[1..]) + "\0", PendingText(m, Some(pending)), Modifier(k) + digits;
    var tail := CodeText(m, None, items[1..]);
    assert PrintItem(items[0]) + rest == "\\" + (text + rest);
    StepsFlush(m, out, pending, text + rest);
    StepsPrinted(m, out + p, pending.1, k, digits, rest);
    StepsItems(m, out + p + text, None, items[1..]);
    Regroup3(out, p, text, tail, "\0");
  }

  lemma {:induction false} StepsItemsLit(m: Match, out: string, pending: Option<(nat, Case)>, items: seq<Item>, c: char)
    requires m.WellFormed() && GoodItems(items) && items != [] && items[0] == Lit(c)
    requires |out| + |CodeText(m, pending, items)| + 1 < METRIC_BUFSIZ
    ensures Steps(m, State(out, pending), [c] + (Print(items[1..]) + "\0")).out ==
            out + CodeText(m, pending, items) + "\0"
    decreases |items|, 0
  {
    hide Recase, Match.Referenced, Value;
    var rest, p := Print(items[1..]) + "\0", PendingText(m, pending);
    if pending.Some? && IsDigit(c) {
      var next := (pending.value.0 * 10 + Digit(c), pending.value.1);
      assert ([c] + rest)[1..] == rest;
      StepsItems(m, out, Some(next), items[1..]);
    } else {
      StepsLit(m, out, pending, c, rest);
      StepsItems(m, out + (p + [c]), None, items[1..]);
      Regroup(out, p + [c], CodeText(m, None, items[1..]), "\0");
    }
  }

  lemma {:induction false} Regroup(a: string, b: string, c: string, d: string)
    ensures a + b + c + d == a + (b + c) + d
  {
  }

  lemma {:induction false} Regroup3(a: string, b: string, c: string, d: string, e: string)
    ensures a + b + c + d + e == a + (b + c + d) + e
  {
  }

  /** The terminating NUL writes what is pending and then itself. */
  lemma {:induction false} StepsNul(m: Match, out: string, pending: Option<(nat, Case)>)
    requires m.WellFormed()
    requires |out| + |PendingText(m, pending)| + 1 < METRIC_BUFSIZ
    ensures Steps(m, State(out, pending), "\0").out == out + PendingText(m, pending) + "\0"
  {
    assert "\0"[1..] == "";
    assert Steps(m, State(out, pending), "\0") == Step(m, State(out, pending), '\0');
  }

  /** The result with `text` in place of the matched part. */
  function Result(m: Match, text: string): (string, nat)
    requires m.WellFormed()
  {
    var name := m.Prefix() + text + m.Suffix();
    (name + m.Data(), |name|)
  }

  predicate Fits(m: Match, text: string)
    requires m.WellFormed()
  {
    m.Data() != "" && |m.Prefix()| + |text| + |m.Suffix()| + |m.Data()| < METRIC_BUFSIZ
  }

  /** Main result: what a call does with every template and every match that fits. */
  lemma {:induction false} RewriteIsCodeText(m: Match, items: seq<Item>)
    requires m.WellFormed() && GoodItems(items) && Fits(m, CodeText(m, None, items))
    ensures Rewritten(m, Print(items)) == Some(Result(m, CodeText(m, None, items)))
  {
    hide Steps, CodeText, Print;
    StepsItems(m, m.Prefix(), None, items);
    var out := m.Prefix() + CodeText(m, None, items) + "\0";
    assert out[..|out| - 1] == m.Prefix() + CodeText(m, None, items);
  }

  // ---------------------------------------------------------------------
  // When that is the meaning of the template
  // ---------------------------------------------------------------------

  /** Behind a reference: no digit, and no reference with a modifier. */
  predicate Separated(behind: Option<Case>, items: seq<Item>)
    requires GoodItems(items)
    decreases |items|
  {
    items == [] ||
    match items[0]
    case Lit(c) => !(behind.Some? && IsDigit(c)) && Separated(None, items[1..])
    case Ref(k, digits) =>
      if behind.None? then Separated(Some(k), items[1..]) else k == Retain && Separated(behind, items[1..])
  }

  /**
   * Nor, in a run of references that begins with a modifier, any to one of the
   * `n` groups; group 0 and groups there are not stand for nothing.
   */
  predicate Faithful(n: nat, behind: Option<Case>, items: seq<Item>)
    requires GoodItems(items)
    decreases |items|
  {
    items == [] ||
    match items[0]
    case Lit(c) => !(behind.Some? && IsDigit(c)) && Faithful(n, None, items[1..])
    case Ref(k, digits) =>
      if behind.None? then Faithful(n, Some(k), items[1..])
      else k == Retain && (behind == Some(Retain) || !(1 <= Value(0, digits) <= n)) && Faithful(n, behind, items[1..])
  }

  function CaseOf(pending: Option<(nat, Case)>): Option<Case> {
    if pending.None? then None else Some(pending.value.1)
  }

  lemma {:induction false} NothingReferenced(m: Match, ref: nat, k: Case)
    requires m.WellFormed() && !(1 <= ref <= m.nmatch)
    ensures Recase(k, m.Referenced(ref)) == ""
  {
  }

  lemma {:induction false} FaithfulText(m: Match, pending: Option<(nat, Case)>, items: seq<Item>)
    requires m.WellFormed() && GoodItems(items) && Faithful(m.nmatch, CaseOf(pending), items)
    ensures CodeText(m, pending, items) == PendingText(m, pending) + Meaning(m, items)
    decreases |items|
  {
    hide Value, Recase, Match.Referenced;
    if items != [] {
      var p, rest := PendingText(m, pending), Meaning(m, items[1..]);
      match items[0] {
        case Lit(c) =>
          FaithfulText(m, None, items[1..]);
          assert p + [c] + ("" + rest) == p + ([c] + rest);
        case Ref(k, digits) =>
          var next := (Value(0, digits), if pending.None? then k else pending.value.1);
          FaithfulText(m, Some(next), items[1..]);
          if next.1 != k {
            NothingReferenced(m, next.0, next.1);
            NothingReferenced(m, next.0, k);
          }
          assert PendingText(m, Some(next)) == ItemMeaning(m, items[0]);
          assert p + (ItemMeaning(m, items[0]) + rest) == (p + ItemMeaning(m, items[0])) + rest;
      }
    }
  }

  /** References that touch nothing are faithful for any number of groups. */
  lemma {:induction false} ApartIsFaithful(n: nat, behind: Option<Case>, items: seq<Item>)
    requires GoodItems(items)
    requires forall i :: 0 <= i < |items| - 1 && items[i].Ref? ==> items[i + 1].Lit? && !IsDigit(items[i + 1].c)
    requires behind.Some? && items != [] ==> items[0].Lit? && !IsDigit(items[0].c)
    ensures Faithful(n, behind, items)
    decreases |items|
  {
    if items != [] {
      var rest := items[1..];
      forall i | 0 <= i < |rest| - 1 && rest[i].Ref? ensures rest[i + 1].Lit? && !IsDigit(rest[i + 1].c) {
        assert rest[i] == items[i + 1] && rest[i + 1] == items[i + 1 + 1];
      }
      ApartIsFaithful(n, if items[0].Ref? then Some(items[0].k) else None, rest);
    }
  }

  /**
   * Main result: for data after the name and a result that fits, the output
   * is prefix, expanded template, suffix and data, and the reported first
   * space is where the name ends.
   */
  lemma {:induction false} RewriteMeansTemplate(m: Match, items: seq<Item>)
    requires m.WellFormed() && GoodItems(items) && Faithful(m.nmatch, None, items) && Fits(m, Meaning(m, items))
    ensures Rewritten(m, Print(items)) == Some(Result(m, Meaning(m, items)))
  {
    hide Rewritten, CodeText, Meaning, Print, Faithful;
    FaithfulText(m, None, items);
    assert "" + Meaning(m, items) == Meaning(m, items);
    RewriteIsCodeText(m, items);
  }

  // The converse: a match with no group set finds digits and modifiers out of
  // place, one with every group set finds a case that spills over.

  function Blank(n: nat): (m: Match)
    ensures m.WellFormed()
  {
    Match("x 1", 1, n, [Span(0, 0)] + seq(n, _ => Span(-1, -1)))
  }

  function Full(n: nat): (m: Match)
    ensures m.WellFormed()
  {
    Match("aA. 1", 3, n, [Span(0, 0)] + seq(n, _ => Span(0, 3)))
  }

  /** How many characters are no digits. */
  function NonDigits(s: string): nat {
    if s == "" then 0 else (if IsDigit(s[0]) then 0 else 1) + NonDigits(s[1..])
  }

  lemma {:induction false} NonDigitsAppend(a: string, b: string)
    ensures NonDigits(a + b) == NonDigits(a) + NonDigits(b)
    decreases |a|
  {
    if a == "" {
      assert a + b == b;
    } else {
      assert (a + b)[1..] == a[1..] + b;
      NonDigitsAppend(a[1..], b);
    }
  }

  lemma {:induction false} BlankRefers(n: nat, k: Case, ref: nat)
    ensures Blank(n).WellFormed() && Recase(k, Blank(n).Referenced(ref)) == ""
  {
  }

  /** Swallowed digits make the text shorter, printed modifiers add characters that are no digits. */
  lemma {:induction false} BlankTells(n: nat, pending: Option<(nat, Case)>, items: seq<Item>)
    requires GoodItems(items) && Blank(n).WellFormed()
    ensures var c, w := CodeText(Blank(n), pending, items), Meaning(Blank(n), items);
            && NonDigits(c) >= NonDigits(w)
            && (NonDigits(c) == NonDigits(w) ==> |c| <= |w|)
            && (!Separated(CaseOf(pending), items) ==> NonDigits(c) > NonDigits(w) || |c| < |w|)
    decreases |items|
  {
    hide Recase, Match.Referenced, Match.WellFormed, Value, NonDigits;
    var m := Blank(n);
    if pending.Some? {
      BlankRefers(n, pending.value.1, pending.value.0);
    }
    if items != [] {
      var rest := items[1..];
      match items[0] {
        case Lit(c) =>
          var next := if pending.Some? && IsDigit(c) then Some((pending.value.0 * 10 + Digit(c), pending.value.1))
                      else None;
          BlankTells(n, next, rest);
          assert PendingText(m, pending) + [c] == [c];
          NonDigitsOf(c, CodeText(m, next, rest));
          NonDigitsOf(c, Meaning(m, rest));
        case Ref(k, digits) =>
          BlankRefers(n, k, Value(0, digits));
          assert Meaning(m, items) == Meaning(m, rest);
          if pending.None? {
            BlankTells(n, Some((Value(0, digits), k)), rest);
          } else if k == Retain {
            BlankTells(n, Some((Value(0, digits), pending.value.1)), rest);
            assert CodeText(m, pending, items) == CodeText(m, Some((Value(0, digits), pending.value.1)), rest);
          } else {
            BlankTells(n, None, rest);
            assert CodeText(m, pending, items) == Modifier(k) + digits + CodeText(m, None, rest);
            PrintedNonDigits(k, digits, CodeText(m, None, rest));
          }
      }
    }
  }

  lemma {:induction false} NonDigitsOf(c: char, s: string)
    ensures NonDigits([c] + s) == (if IsDigit(c) then 0 else 1) + NonDigits(s)
  {
    assert ([c] + s)[1..] == s;
  }

  lemma {:induction false} PrintedNonDigits(k: Case, digits: string, s: string)
    requires GoodItem(Ref(k, digits)) && k != Retain
    ensures NonDigits(Modifier(k) + digits + s) > NonDigits(s)
  {
    PrintedText(k, digits);
    var text := Modifier(k) + digits;
    hide Modifier;
    NonDigitsAppend(text, s);
  }

  lemma {:induction false} FullRefers(n: nat, k: Case, ref: nat)
    ensures Full(n).WellFormed() && |Recase(k, Full(n).Referenced(ref))| == if 1 <= ref <= n then 3 else 0
    ensures Recase(k, Full(n).Referenced(ref)) == Recase(Retain, Full(n).Referenced(ref)) <==>
            k == Retain || !(1 <= ref <= n)
  {
    var t := Full(n).Referenced(ref);
    if 1 <= ref <= n {
      assert t == "aA.";
      var r := Recase(k, t);
      assert r[0] == RecaseChar(k, 'a') && r[1] == RecaseChar(k, 'A') && r[2] == RecaseChar(k, '.');
      assert Recase(Retain, t)[0] == 'a' && Recase(Retain, t)[1] == 'A' && Recase(Retain, t)[2] == '.';
      assert k == Retain ==> Recase(k, t) == Recase(Retain, t);
    } else {
      assert t == "" && Recase(k, t) == "" && Recase(Retain, t) == "";
    }
  }

  /** With the pieces aligned, one that differs makes the whole differ; `w` is what the pending piece should be. */
  lemma {:induction false} FullTells(n: nat, pending: Option<(nat, Case)>, w: string, items: seq<Item>)
    requires GoodItems(items) && Full(n).WellFormed() && Separated(CaseOf(pending), items)
    requires |w| == |PendingText(Full(n), pending)|
    requires w != PendingText(Full(n), pending) || !Faithful(n, CaseOf(pending), items)
    ensures CodeText(Full(n), pending, items) != w + Meaning(Full(n), items)
    decreases |items|
  {
    hide Recase, Match.Referenced, Match.WellFormed, Value;
    var m := Full(n);
    var p := PendingText(m, pending);
    if items == [] {
      assert w + Meaning(m, items) == w;
    } else {
      var rest := items[1..];
      match items[0] {
        case Lit(c) =>
          if w == p {
            FullTells(n, None, "", rest);
            assert "" + Meaning(m, rest) == Meaning(m, rest);
            Differs([c], [c], CodeText(m, None, rest), Meaning(m, rest));
          }
          Differs(p, w, [c] + CodeText(m, None, rest), [c] + Meaning(m, rest));
          assert p + [c] + CodeText(m, None, rest) == p + ([c] + CodeText(m, None, rest));
        case Ref(k, digits) =>
          var next := (Value(0, digits), if pending.None? then k else pending.value.1);
          var piece := ItemMeaning(m, items[0]);
          FullRefers(n, k, next.0);
          FullRefers(n, next.1, next.0);
          if w == p {
            FullTells(n, Some(next), piece, rest);
          }
          Differs(p, w, CodeText(m, Some(next), rest), piece + Meaning(m, rest));
          assert pending.None? ==> CodeText(m, pending, items) == p + CodeText(m, Some(next), rest);
      }
    }
  }

  lemma {:induction false} Differs(p: string, w: string, a: string, b: string)
    requires |p| == |w| && (p != w || a != b)
    ensures p + a != w + b
  {
    assert (p + a)[..|p|] == p && (w + b)[..|w|] == w && (p + a)[|p|..] == a && (w + b)[|w|..] == b;
  }

  /** One of the two matches tells an unfaithful template. */
  lemma {:induction false} UnfaithfulShows(n: nat, items: seq<Item>)
    requires GoodItems(items) && !Faithful(n, None, items)
    ensures || CodeText(Blank(n), None, items) != Meaning(Blank(n), items)
            || CodeText(Full(n), None, items) != Meaning(Full(n), items)
  {
    hide CodeText, Meaning, Faithful, Separated, NonDigits;
    BlankRefers(n, Retain, 0);
    FullRefers(n, Retain, 0);
    if !Separated(None, items) {
      BlankTells(n, None, items);
    } else {
      FullTells(n, None, "", items);
      assert "" + Meaning(Full(n), items) == Meaning(Full(n), items);
    }
  }

  /**
   * Main result: a template means what it says for every match of a rule with
   * `n` groups exactly when no digit and no modified reference stands right
   * behind a reference, and behind a modified one only empty references do.
   */
  lemma {:induction false} MeaningExactlyWhen(n: nat, items: seq<Item>)
    requires GoodItems(items)
    ensures (forall m: Match :: m.WellFormed() && m.nmatch == n ==> CodeText(m, None, items) == Meaning(m, items))
            <==> Faithful(n, None, items)
  {
    hide CodeText, Meaning, Faithful;
    if Faithful(n, None, items) {
      forall m: Match | m.WellFormed() && m.nmatch == n ensures CodeText(m, None, items) == Meaning(m, items) {
        FaithfulText(m, None, items);
        assert "" + Meaning(m, items) == Meaning(m, items);
      }
    } else {
      UnfaithfulShows(n, items);
    }
  }

  /** A call succeeds with the meaning of the template only if the text it writes is that meaning. */
  lemma {:induction false} ResultTellsText(m: Match, items: seq<Item>)
    requires m.WellFormed() && GoodItems(items) && Fits(m, CodeText(m, None, items))
    ensures Rewritten(m, Print(items)) == Some(Result(m, Meaning(m, items))) <==>
            CodeText(m, None, items) == Meaning(m, items)
  {
    hide Rewritten, CodeText, Meaning, Print;
    RewriteIsCodeText(m, items);
    var c, w := CodeText(m, None, items), Meaning(m, items);
    var tail := m.Suffix() + m.Data();
    assert Result(m, c).0 == m.Prefix() + (c + tail) && Result(m, w).0 == m.Prefix() + (w + tail);
    if c != w && |c| == |w| {
      Differs(c, w, tail, tail);
      Differs(m.Prefix(), m.Prefix(), c + tail, w + tail);
    }
  }

  /**
   * Main result: the same of the call itself. For a template whose text fits in
   * the two telling matches, every call where it fits succeeds with the meaning
   * exactly when the template is faithful.
   */
  lemma {:induction false} RewriteMeansTemplateExactlyWhen(n: nat, items: seq<Item>)
    requires GoodItems(items)
    requires Fits(Blank(n), CodeText(Blank(n), None, items)) && Fits(Full(n), CodeText(Full(n), None, items))
    ensures (forall m: Match :: m.WellFormed() && m.nmatch == n && Fits(m, CodeText(m, None, items)) ==>
               Rewritten(m, Print(items)) == Some(Result(m, Meaning(m, items))))
            <==> Faithful(n, None, items)
  {
    hide Rewritten, CodeText, Meaning, Print, Faithful, Fits, Result;
    if Faithful(n, None, items) {
      forall m: Match | m.WellFormed() && m.nmatch == n && Fits(m, CodeText(m, None, items))
        ensures Rewritten(m, Print(items)) == Some(Result(m, Meaning(m, items)))
      {
        FaithfulText(m, None, items);
        assert "" + Meaning(m, items) == Meaning(m, items);
        ResultTellsText(m, items);
      }
    } else {
      UnfaithfulShows(n, items);
      ResultTellsText(Blank(n), items);
      ResultTellsText(Full(n), items);
    }
  }

  /** What becomes of two references that touch. */
  lemma {:induction false} TouchingPair(m: Match, k: Case, l: Case)
    requires m.WellFormed() && m.Data() != "" && |m.metric| < 1000
    ensures var items := [Ref(k, "1"), Ref(l, "2")];
            && GoodItems(items)
            && Meaning(m, items) == Recase(k, m.Referenced(1)) + Recase(l, m.Referenced(2))
            && Rewritten(m, Print(items)) == Some(Result(m, Recase(k, m.Referenced(1)) +
                 if l == Retain then Recase(k, m.Referenced(2)) else Modifier(l) + "2"))
  {
    hide Rewritten, Recase, Match.Referenced, Print;
    var items := [Ref(k, "1"), Ref(l, "2")];
    var last := items[1..];
    assert last == [Ref(l, "2")] && last[1..] == [];
    assert Value(0, "1") == 1 && Value(0, "2") == 2;
    assert Meaning(m, last) == Recase(l, m.Referenced(2)) + "";
    var second := if l == Retain then Recase(k, m.Referenced(2)) else Modifier(l) + "2";
    assert CodeText(m, Some((1, k)), last) == Recase(k, m.Referenced(1)) + second;
    ReferencedFits(m, 1);
    ReferencedFits(m, 2);
    RewriteIsCodeText(m, items);
  }

  lemma {:induction false} ReferencedFits(m: Match, ref: nat)
    requires m.WellFormed()
    ensures |m.Referenced(ref)| <= |m.metric| && |m.Prefix()| + |m.Suffix()| + |m.Data()| <= |m.metric|
  {
  }

  /** The name "A.B" and the spans of its first and last letter. */
  function Letters(): Match {
    Match("A.B 1", 3, 2, [Span(0, 3), Span(0, 1), Span(2, 3)])
  }

  lemma {:induction false} LettersAre(text: string)
    ensures var m := Letters();
            && m.WellFormed() && m.Referenced(1) == "A" && m.Referenced(2) == "B"
            && m.Data() == " 1" && Result(m, text) == (text + " 1", |text|)
    ensures Recase(Lower, "A") == "a" && Recase(Lower, "B") == "b" && Recase(Retain, "A") == "A" &&
            Recase(Retain, "B") == "B"
  {
    var m := Letters();
    assert m.Prefix() == "" && m.Suffix() == "" && "" + text + "" == text;
  }

  lemma {:induction false} PrintTouching(k: Case, l: Case)
    ensures Print([Ref(k, "1"), Ref(l, "2")]) == "\\" + Modifier(k) + "1" + ("\\" + Modifier(l) + "2")
  {
    hide Modifier;
    var items := [Ref(k, "1"), Ref(l, "2")];
    assert items[1..] == [Ref(l, "2")] && items[1..][1..] == [];
    assert Print(items[1..]) == PrintItem(Ref(l, "2")) + "" == PrintItem(Ref(l, "2"));
  }

  /** A case that spills over: `\_1\2` makes "ab" of what should be "aB". */
  lemma {:induction false} CaseSpillsOver()
    ensures Letters().WellFormed() && Print([Ref(Lower, "1"), Ref(Retain, "2")]) == "\\_1\\2"
    ensures Meaning(Letters(), [Ref(Lower, "1"), Ref(Retain, "2")]) == "aB"
    ensures Rewritten(Letters(), "\\_1\\2") == Some(("ab 1", 2))
  {
    hide Rewritten, Meaning, Print, Recase, Match.Referenced;
    LettersAre("ab");
    PrintTouching(Lower, Retain);
    TouchingPair(Letters(), Lower, Retain);
    assert "\\" + "_" + "1" + ("\\" + "" + "2") == "\\_1\\2";
    assert "a" + "b" == "ab" && "a" + "B" == "aB" && "ab" + " 1" == "ab 1";
  }

  /** A modifier that is printed: `\1\_2` makes "A_2" of what should be "Ab". */
  lemma {:induction false} ModifierIsPrinted()
    ensures Letters().WellFormed() && Print([Ref(Retain, "1"), Ref(Lower, "2")]) == "\\1\\_2"
    ensures Meaning(Letters(), [Ref(Retain, "1"), Ref(Lower, "2")]) == "Ab"
    ensures Rewritten(Letters(), "\\1\\_2") == Some(("A_2 1", 3))
  {
    hide Rewritten, Meaning, Print, Recase, Match.Referenced;
    LettersAre("A_2");
    PrintTouching(Retain, Lower);
    TouchingPair(Letters(), Retain, Lower);
    assert "\\" + "" + "1" + ("\\" + "_" + "2") == "\\1\\_2";
    assert "A" + ("_" + "2") == "A_2" && "A" + "b" == "Ab" && "A_2" + " 1" == "A_2 1";
  }
}
