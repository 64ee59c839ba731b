/**
 * What the line cleanser makes of a whole line (`dispatch_received_metrics`),
 * without its machine: a name is its nonempty words joined by dots, and data
 * loses only repeated separators.
 */
module LineForms {
  import opened Common
  import opened Cleanser

  predicate Separator(c: char) {
    c == ' ' || c == '\t' || c == '.'
  }

  // ---------------------------------------------------------------------
  // Names
  // ---------------------------------------------------------------------

  /** A name as it is received: neither spaces nor line ends. */
  predicate RawName(x: string) {
    forall c :: c in x ==> c != ' ' && c != '\t' && !IsEnd(c)
  }

  predicate Always(c: char) {
    c in SMALL || c in CAPITAL || c in DIGITS
  }

  /** The permitted characters stay, all others become underscores. */
  function Permitted(cfg: Config, c: char): char {
    if c != '\0' && (Always(c) || c in cfg.allowed) then c else '_'
  }

  lemma {:induction false} AlwaysPermitted(c: char)
    ensures Always(c) <==> Alnum(c)
  {
    SmallLetters(c);
    CapitalLetters(c);
    DecimalDigits(c);
  }

  /** The words between the dots of a name, empty ones included. */
  function Words(cfg: Config, x: string): (ws: seq<string>)
    ensures ws != []
  {
    if x == "" then [""]
    else
      var ws, c := Words(cfg, x[..|x| - 1]), x[|x| - 1];
      if c == '.' then ws + [""] else ws[..|ws| - 1] + [ws[|ws| - 1] + [Permitted(cfg, c)]]
  }

  function Nonempty(ws: seq<string>): (r: seq<string>)
    ensures forall w :: w in r ==> w != ""
  {
    if ws == [] then []
    else Nonempty(ws[..|ws| - 1]) + if ws[|ws| - 1] == "" then [] else [ws[|ws| - 1]]
  }

  function Joined(ws: seq<string>): string {
    if ws == [] then "" else if |ws| == 1 then ws[0] else Joined(ws[..|ws| - 1]) + "." + ws[|ws| - 1]
  }

  function CleanedName(cfg: Config, x: string): string {
    Joined(Nonempty(Words(cfg, x)))
  }

  lemma {:induction false} NonemptySnoc(ws: seq<string>, w: string)
    ensures Nonempty(ws + [w]) == Nonempty(ws) + if w == "" then [] else [w]
  {
    assert (ws + [w])[..|ws|] == ws;
  }

  lemma {:induction false} JoinedSnoc(ws: seq<string>, w: string)
    ensures Joined(ws + [w]) == if ws == [] then w else Joined(ws) + "." + w
  {
    assert (ws + [w])[..|ws|] == ws;
  }

  /** The words in front of the last one, with the dot behind them. */
  function Front(ws: seq<string>): string {
    if Nonempty(ws) == [] then "" else Joined(Nonempty(ws)) + "."
  }

  /** The name under construction: the words so far, and a dot if another one is due. */
  function SoFar(cfg: Config, x: string): string {
    var ws := Words(cfg, x);
    Front(ws[..|ws| - 1]) + ws[|ws| - 1]
  }

  lemma {:induction false} WordsSnoc(cfg: Config, x: string, c: char)
    ensures var ws := Words(cfg, x);
            Words(cfg, x + [c]) ==
            if c == '.' then ws + [""] else ws[..|ws| - 1] + [ws[|ws| - 1] + [Permitted(cfg, c)]]
  {
    assert (x + [c])[..|x|] == x;
  }

  /** With its last word the front becomes the name. */
  lemma {:induction false} FrontAndWord(ws: seq<string>, w: string)
    requires w != ""
    ensures Joined(Nonempty(ws + [w])) == Front(ws) + w && Front(ws + [w]) == Front(ws) + w + "."
  {
    hide Joined, Nonempty;
    NonemptySnoc(ws, w);
    JoinedSnoc(Nonempty(ws), w);
    assert "" + w == w;
  }

  lemma {:induction false} FrontAndNothing(ws: seq<string>)
    ensures Nonempty(ws + [""]) == Nonempty(ws) && Front(ws + [""]) == Front(ws)
  {
    hide Joined, Nonempty;
    NonemptySnoc(ws, "");
  }

  /** No dot is left in a word, so none ends a name whose last word is not empty. */
  lemma {:induction false} WordsHoldNoDot(cfg: Config, x: string)
    ensures forall w :: w in Words(cfg, x) ==> '.' !in w
    decreases |x|
  {
    if x != "" {
      WordsHoldNoDot(cfg, x[..|x| - 1]);
    }
  }

  lemma {:induction false} DotStep(cfg: Config, x: string)
    ensures Step(cfg, Line(SoFar(cfg, x), None), '.') == Line(SoFar(cfg, x + ['.']), None)
  {
    hide Front, Words;
    var ws := Words(cfg, x);
    var init, w := ws[..|ws| - 1], ws[|ws| - 1];
    WordsSnoc(cfg, x, '.');
    assert ws == init + [w] && (ws + [""])[..|ws|] == ws;
    assert Front(ws) + "" == Front(ws) && Front(init) + "" == Front(init);
    if w == "" {
      FrontAndNothing(init);
      FrontEnds(init);
    } else {
      FrontAndWord(init, w);
      WordsHoldNoDot(cfg, x);
      assert w in ws && w[|w| - 1] in w;
    }
  }

  lemma {:induction false} FrontEnds(ws: seq<string>)
    ensures Front(ws) != "" ==> Front(ws)[|Front(ws)| - 1] == '.'
  {
  }

  lemma {:induction false} CharInName(cfg: Config, x: string, c: char)
    requires c != '.' && c != ' ' && c != '\t'
    ensures Step(cfg, Line(SoFar(cfg, x), None), c) == Line(SoFar(cfg, x + [c]), None)
  {
    hide Front, Words;
    AlwaysPermitted(c);
    var ws := Words(cfg, x);
    var init, w, p := ws[..|ws| - 1], ws[|ws| - 1], Permitted(cfg, c);
    WordsSnoc(cfg, x, c);
    assert (init + [w + [p]])[..|init|] == init;
    assert Front(init) + w + [p] == Front(init) + (w + [p]);
  }

  lemma {:induction false} NothingJoined()
    ensures Joined([]) == "" && Nonempty([]) == []
  {
  }

  lemma {:induction false} NameIsWords(cfg: Config, x: string)
    requires RawName(x)
    ensures ConsumeAll(cfg, START, x) == START.(line := Line(SoFar(cfg, x), None))
    decreases |x|
  {
    hide Step, SoFar;
    if x == "" {
      NoWords(cfg);
    } else {
      var y, c := x[..|x| - 1], x[|x| - 1];
      assert x == y + [c] && c in x;
      NameIsWords(cfg, y);
      if c == '.' {
        DotStep(cfg, y);
      } else {
        CharInName(cfg, y, c);
      }
    }
  }

  lemma {:induction false} NoWords(cfg: Config)
    ensures SoFar(cfg, "") == ""
  {
    assert [""][..0] == [];
  }

  /** The space behind a name takes a dot at its end away. */
  lemma {:induction false} SpaceBehindName(cfg: Config, x: string)
    requires CleanedName(cfg, x) != ""
    ensures Step(cfg, Line(SoFar(cfg, x), None), ' ') ==
            Line(CleanedName(cfg, x) + " ", Some(|CleanedName(cfg, x)|))
  {
    hide Joined, Nonempty, Words;
    var ws := Words(cfg, x);
    var init, w := ws[..|ws| - 1], ws[|ws| - 1];
    assert ws == init + [w];
    NothingJoined();
    if w == "" {
      FrontAndNothing(init);
      var q := Joined(Nonempty(init));
      assert Front(init) + "" == Front(init) == q + "." && (q + ".")[..|q|] == q;
    } else {
      FrontAndWord(init, w);
      WordsHoldNoDot(cfg, x);
      assert w in ws && w[|w| - 1] in w;
    }
  }

  // ---------------------------------------------------------------------
  // Data
  // ---------------------------------------------------------------------

  function Plain(c: char): char {
    if c == '\t' then ' ' else if c == '\0' then '_' else c
  }

  /** A separator is kept unless nothing else came before it or it repeats the one in front of it. */
  predicate Kept(y: string, i: nat)
    requires i < |y|
  {
    Separator(y[i]) ==> (exists j :: 0 <= j < i && !Separator(y[j])) && Plain(y[i]) != Plain(y[i - 1])
  }

  function CleanedData(y: string): string {
    if y == "" then ""
    else CleanedData(y[..|y| - 1]) + if Kept(y, |y| - 1) then [Plain(y[|y| - 1])] else ""
  }

  /** Cleaned data ends like the data did, once there is any. */
  lemma {:induction false} DataEnds(y: string)
    ensures CleanedData(y) == "" <==> forall j :: 0 <= j < |y| ==> Separator(y[j])
    ensures CleanedData(y) != "" ==> y != "" && CleanedData(y)[|CleanedData(y)| - 1] == Plain(y[|y| - 1])
    decreases |y|
  {
    if y != "" {
      DataEnds(y[..|y| - 1]);
      assert forall j :: 0 <= j < |y| - 1 ==> y[..|y| - 1][j] == y[j];
    }
  }

  lemma {:induction false} DataStep(cfg: Config, name: string, y: string, c: char)
    requires name != "" && !IsEnd(c)
    ensures var f := Some(|name|);
            Step(cfg, Line(name + " " + CleanedData(y), f), c) == Line(name + " " + CleanedData(y + [c]), f)
  {
    hide CleanedData;
    DataSnoc(y, c);
    DataEnds(y);
    var d := CleanedData(y);
    var q := name + " " + d;
    assert q != "" && (d != "" ==> q[|q| - 1] == d[|d| - 1]) && (d == "" ==> |q| - 1 == |name|);
    assert q + [Plain(c)] == name + " " + (d + [Plain(c)]);
    assert q + "" == q && d + "" == d;
  }

  lemma {:induction false} DataSnoc(y: string, c: char)
    ensures CleanedData(y + [c]) == CleanedData(y) +
              if Separator(c) && ((forall j :: 0 <= j < |y| ==> Separator(y[j])) || Plain(y[|y| - 1]) == Plain(c))
              then "" else [Plain(c)]
  {
    assert (y + [c])[..|y|] == y;
    assert forall j :: 0 <= j < |y| ==> (y + [c])[j] == y[j];
  }

  lemma {:induction false} DataIsCleaned(cfg: Config, s: Scan, name: string, y: string)
    requires name != "" && s.line == Line(name + " ", Some(|name|)) && forall c :: c in y ==> !IsEnd(c)
    ensures ConsumeAll(cfg, s, y) == s.(line := Line(name + " " + CleanedData(y), Some(|name|)))
    decreases |y|
  {
    hide Step, CleanedData;
    if y == "" {
      NoData();
      assert name + " " + "" == name + " ";
    } else {
      var z, c := y[..|y| - 1], y[|y| - 1];
      assert y == z + [c];
      DataIsCleaned(cfg, s, name, z);
      DataStep(cfg, name, z, c);
    }
  }

  lemma {:induction false} NoData()
    ensures CleanedData("") == ""
  {
  }

  // ---------------------------------------------------------------------
  // Lines
  // ---------------------------------------------------------------------

  /**
   * Main result: a line of a name, a space and data is routed as the name's
   * nonempty words joined by dots and the data without repeated separators,
   * unless there is no word or a limit is exceeded, and then it is discarded.
   */
  lemma {:induction false} LineIsCleaned(cfg: Config, x: string, y: string)
    requires RawName(x) && forall c :: c in y ==> !IsEnd(c)
    requires CleanedName(cfg, x) != ""
    ensures var name := CleanedName(cfg, x);
            var text := name + " " + CleanedData(y);
            ConsumeAll(cfg, START, x + " " + y + "\n") ==
            if |text| < cfg.maxinplen && |name| <= cfg.maxmetriclen
            then Scan(EMPTY, [Routed(text + "\n", |name|)], 1, 0) else Scan(EMPTY, [], 0, 1)
  {
    hide Step, SoFar, CleanedData, ConsumeAll, CleanedName;
    NameIsWords(cfg, x);
    ConsumeOne(cfg, START, x, ' ');
    SpaceBehindName(cfg, x);
    var name := CleanedName(cfg, x);
    var s := START.(line := Line(name + " ", Some(|name|)));
    assert x + [' '] == x + " ";
    ConsumeAppend(cfg, START, x + " ", y);
    DataIsCleaned(cfg, s, name, y);
    ConsumeOne(cfg, START, x + " " + y, '\n');
    assert x + " " + y + ['\n'] == x + " " + y + "\n";
  }

  /** A line without a word is discarded, whatever separators it has. */
  lemma {:induction false} BlankLineIsDiscarded(cfg: Config, x: string)
    requires forall c :: c in x ==> Separator(c)
    ensures ConsumeAll(cfg, START, x) == START
    ensures ConsumeAll(cfg, START, x + "\n") == Scan(EMPTY, [], 0, 1)
    decreases |x|
  {
    if x != "" {
      assert x == x[..|x| - 1] + [x[|x| - 1]] && x[|x| - 1] in x;
      BlankLineIsDiscarded(cfg, x[..|x| - 1]);
    }
    ConsumeOne(cfg, START, x, '\n');
  }

  /** Separators in front of a line change nothing. */
  lemma {:induction false} LeadingSeparators(cfg: Config, x: string, rest: string)
    requires forall c :: c in x ==> Separator(c)
    ensures ConsumeAll(cfg, START, x + rest) == ConsumeAll(cfg, START, rest)
  {
    hide ConsumeAll;
    BlankLineIsDiscarded(cfg, x);
    ConsumeAppend(cfg, START, x, rest);
  }
}
