/** What build.sh's drift check buys the later policy check: two readers of one .config that must
    agree on every line the fragment states. */
module ConfigPipeline {
  import opened Wrappers
  import opened Text
  import opened ConfigLines
  import opened BuildDrift
  import opened Ikconfig
  import opened GoldenFile

  /** A line that mentions the title has a space in it, and an 'r'. */
  lemma {:induction false} TitleChars(line: string)
    ensures Contains(line, TITLE) ==> ' ' in line && 'r' in line
  {
    if Contains(line, TITLE) {
      var i :| 0 <= i <= |line| && HasPrefix(line[i..], TITLE);
      assert line[i..][..|TITLE|] == TITLE;
      assert TITLE[6] == ' ' && TITLE[2] == 'r';
      assert line[i..][6] == line[i + 6] && line[i..][2] == line[i + 2];
    }
  }

  lemma {:induction false} PlainHasNoSpace(v: string)
    requires PlainValue(v)
    ensures ' ' !in v
  {
    if HasPrefix(v, "0x") && HexDigits(v[2..]) {
      assert v == v[..2] + v[2..];
    }
  }

  /** Plain assignments and not-set lines of proper symbols are never taken for the title. */
  lemma {:induction false} NeverTitle(symbol: string, value: string)
    requires IsSymbol(symbol)
    ensures PlainValue(value) ==> !Contains(ValueLine(symbol, value), TITLE)
    ensures !Contains(NotSetLine(symbol), TITLE)
  {
    SymbolHasNo(symbol, ' ');
    SymbolHasNo(symbol, 'r');
    TitleChars(ValueLine(symbol, value));
    TitleChars(NotSetLine(symbol));
    if PlainValue(value) {
      PlainHasNoSpace(value);
    }
  }

  /** The Go reader's symbol and value of an assignment. */
  lemma {:induction false} AssignmentOf(symbol: string, value: string)
    requires IsSymbol(symbol)
    ensures HasPrefix(ValueLine(symbol, value), PREFIX)
    ensures Assignment(ValueLine(symbol, value)) == (symbol, value)
  {
    var line := ValueLine(symbol, value);
    var rest := symbol + ['='] + value;
    SymbolHasNo(symbol, '=');
    IndexOfAt(symbol, '=', value);
    assert line == PREFIX + rest && line[|PREFIX|..] == rest;
    assert rest[..|symbol|] == symbol && rest[|symbol| + 1..] == value;
  }

  lemma {:induction false} VerdictOfValue(symbol: string, value: string)
    requires IsSymbol(symbol)
    ensures Verdict(ValueLine(symbol, value))
         == if value == "y" then Some((symbol, Y)) else if value == "m" then Some((symbol, M)) else None
  {
    AssignmentOf(symbol, value);
    PrefixChar(ValueLine(symbol, value), HASH_PREFIX, 0);
  }

  /** Where the Go reader sees y or m for a proper symbol, the shell's "^CONFIG_X=" matches. */
  lemma {:induction false} YesIsAssigned(line: string, symbol: string)
    requires IsSymbol(symbol)
    requires Verdict(line) == Some((symbol, Y)) || Verdict(line) == Some((symbol, M))
    ensures IsValue(line) && Decides(line) == Some(symbol)
  {
    var rest := line[|PREFIX|..];
    var i := IndexOf(rest, '=');
    CutAt(rest, i);
    assert line == PREFIX + rest;
    GlueValue(rest[..i], rest[i + 1..]);
    ValueDecides(rest[..i], rest[i + 1..]);
  }

  lemma {:induction false} GlueValue(symbol: string, value: string)
    ensures PREFIX + (symbol + "=" + value) == ValueLine(symbol, value)
  {
  }

  /** Position of the last line equal to `l`. */
  function LastLine(lines: seq<string>, l: string): (k: nat)
    requires l in lines
    ensures k < |lines| && lines[k] == l
    ensures forall j :: k < j < |lines| ==> lines[j] != l
  {
    if lines[|lines| - 1] == l then |lines| - 1
    else
      assert lines == lines[..|lines| - 1] + [lines[|lines| - 1]];
      LastLine(lines[..|lines| - 1], l)
  }

  /** No line behind the last CONFIG_X=y gives X another state. */
  predicate NotOverruled(lines: seq<string>, symbol: string) {
    var l := ValueLine(symbol, "y");
    l in lines ==> forall j | LastLine(lines, l) < j < |lines| :: Silent(Verdict(lines[j]), symbol)
  }

  /** The .config says at most one thing about the symbol that a state comes from. */
  ghost predicate AtMostOnce(lines: seq<string>, symbol: string) {
    forall i, j :: 0 <= i < j < |lines| ==>
      Silent(Verdict(lines[i]), symbol) || Silent(Verdict(lines[j]), symbol)
  }

  /** The one line per symbol that olddefconfig writes is enough. */
  lemma {:induction false} OnceIsEnough(lines: seq<string>, symbol: string)
    requires IsSymbol(symbol) && AtMostOnce(lines, symbol)
    ensures NotOverruled(lines, symbol)
  {
    VerdictOfValue(symbol, "y");
  }

  /** The only line that gives a symbol the state y. */
  lemma {:induction false} YesLine(line: string, symbol: string)
    requires Verdict(line) == Some((symbol, Y))
    ensures line == ValueLine(symbol, "y")
  {
    var rest := line[|PREFIX|..];
    var i := IndexOf(rest, '=');
    assert rest[..i] == symbol && rest[i + 1..] == "y";
    CutAt(rest, i);
    assert line == PREFIX + rest;
    GlueValue(symbol, "y");
  }

  lemma {:induction false} CutAt(rest: string, i: nat)
    requires i < |rest| && rest[i] == '='
    ensures rest == rest[..i] + "=" + rest[i + 1..]
  {
  }

  lemma {:induction false} FileLineIsPiece(text: string, l: string)
    requires l in FileLines(text)
    ensures l in Split(text, '\n')
  {
  }

  lemma {:induction false} BodyHas(lines: seq<string>, l: string)
    requires l in lines && !Contains(l, TITLE)
    ensures l in Body(lines)
  {
    DropAtMember(lines, TitleAt(lines), l);
  }

  /** CONFIG_X=y survived: the state is y exactly when no later line gives X another. */
  lemma {:induction false} DriftGivesYes(fragment: string, text: string, symbol: string)
    requires IsSymbol(symbol) && Passes(fragment, text)
    requires ValueLine(symbol, "y") in ReadLines(fragment)
    ensures LastVerdict(Body(Split(text, '\n')), symbol) == Y <==> NotOverruled(Body(Split(text, '\n')), symbol)
  {
    var l := ValueLine(symbol, "y");
    ValueDecides(symbol, "y");
    assert Survives(l, FileLines(text));
    FileLineIsPiece(text, l);
    NeverTitle(symbol, "y");
    BodyHas(Split(text, '\n'), l);
    YesIff(Body(Split(text, '\n')), symbol);
  }

  lemma {:induction false} YesIff(body: seq<string>, symbol: string)
    requires IsSymbol(symbol) && ValueLine(symbol, "y") in body
    ensures LastVerdict(body, symbol) == Y <==> NotOverruled(body, symbol)
  {
    var l := ValueLine(symbol, "y");
    var k := LastLine(body, l);
    VerdictOfValue(symbol, "y");
    if NotOverruled(body, symbol) {
      assert LastWord(Verdicts(body), symbol, Y, k);
      LastWordDecides(Verdicts(body), symbol, Y, k);
    }
    if LastVerdict(body, symbol) == Y {
      var w := LastWordFound(Verdicts(body), symbol);
      assert Verdicts(body)[k] == Some((symbol, Y));
      assert Verdict(body[w]) == Some((symbol, Y));
      YesLine(body[w], symbol);
      assert w <= k;
    }
  }

  /** With "# CONFIG_X is not set" surviving, no line of the file gives X the state y or m. */
  lemma {:induction false} NoYesLine(config: seq<string>, symbol: string, line: string)
    requires IsSymbol(symbol) && Survives(NotSetLine(symbol), config) && line in config
    ensures Verdict(line) != Some((symbol, Y)) && Verdict(line) != Some((symbol, M))
  {
    NotSetDecides(symbol);
    ValueNotNotSet(NotSetLine(symbol));
    SurvivesSymbol(NotSetLine(symbol), config);
    if Verdict(line) == Some((symbol, Y)) || Verdict(line) == Some((symbol, M)) {
      YesIsAssigned(line, symbol);
    }
  }

  lemma {:induction false} BodyLineInFile(text: string, l: string)
    requires l in Body(Split(text, '\n')) && l != ""
    ensures l in FileLines(text)
  {
    var lines := Split(text, '\n');
    DropAtMember(lines, TitleAt(lines), l);
    if lines[|lines| - 1] == "" { AllButEmptyLast(lines, l); }
  }

  lemma {:induction false} AllButEmptyLast(lines: seq<string>, l: string)
    requires l in lines && l != "" && lines[|lines| - 1] == ""
    ensures l in lines[..|lines| - 1]
  {
    var k :| 0 <= k < |lines| && lines[k] == l;
    assert lines[..|lines| - 1][k] == l;
  }

  /** "# CONFIG_X is not set" survived: the state is n or absent, whatever else the file holds. */
  lemma {:induction false} DriftGivesNo(fragment: string, text: string, symbol: string)
    requires IsSymbol(symbol) && Passes(fragment, text)
    requires NotSetLine(symbol) in ReadLines(fragment)
    ensures LastVerdict(Body(Split(text, '\n')), symbol) in {N, Absent}
  {
    var body := Body(Split(text, '\n'));
    var k := LastWordFound(Verdicts(body), symbol);
    if LastVerdict(body, symbol) != Absent {
      assert Verdict(body[k]) == Some((symbol, LastVerdict(body, symbol)));
      assert body[k] != "" by { EmptyIsSilent(symbol); }
      BodyLineInFile(text, body[k]);
      NoYesLine(FileLines(text), symbol, body[k]);
    }
  }

  lemma {:induction false} EmptyIsSilent(symbol: string)
    ensures Silent(Verdict(""), symbol)
  {
  }

  /** Every plain assignment of the fragment is in the golden set; a quoted one is unless it is the
      line that was taken for the title. */
  lemma {:induction false} DriftGivesGolden(
    fragment: string, text: string, symbol: string, value: string, config: Config)
    requires IsSymbol(symbol) && Passes(fragment, text) && Reads(config, Split(text, '\n'))
    requires ValueLine(symbol, value) in ReadLines(fragment)
    requires PlainValue(value) || Quoted(value)
    ensures PlainValue(value) || !Contains(ValueLine(symbol, value), TITLE) ==>
              ValueLine(symbol, value) in config.golden
  {
    var l, lines := ValueLine(symbol, value), Split(text, '\n');
    if PlainValue(value) || !Contains(l, TITLE) {
      ValueDecides(symbol, value);
      assert Survives(l, FileLines(text));
      FileLineIsPiece(text, l);
      NeverTitle(symbol, value);
      BodyHas(lines, l);
      ParsedMember(config, lines, l);
      var i := Equals(l);
      assert l[|PREFIX|..i] == symbol && l[i + 1..] == value;
    }
  }

  /** The fragment states a decision of the policy. */
  predicate States(fragment: string, d: Decision) {
    IsSymbol(d.symbol)
    && (if d.want == WantY then ValueLine(d.symbol, "y") in ReadLines(fragment)
        else NotSetLine(d.symbol) in ReadLines(fragment))
  }

  /** The drift check implies the policy check: a .config that passed build.sh meets whatever the
      fragment states, as Verify sees it, exactly when it overrules none of the lines that survived. */
  lemma {:induction false} DriftImpliesPolicy(fragment: string, text: string, config: Config, policy: seq<Section>)
    requires Passes(fragment, text) && Reads(config, Split(text, '\n'))
    requires forall s, d :: s in policy && d in s.decisions ==> States(fragment, d)
    ensures AllMet(config, policy) <==>
              forall s, d :: s in policy && d in s.decisions && d.want == WantY ==>
                NotOverruled(Body(Split(text, '\n')), d.symbol)
  {
    forall s, d | s in policy && d in s.decisions
      ensures d.want.Met(config.StateOf(d.symbol))
         <==> (d.want == WantY ==> NotOverruled(Body(Split(text, '\n')), d.symbol))
    {
      assert States(fragment, d);
      if d.want == WantY {
        DriftGivesYes(fragment, text, d.symbol);
      } else {
        DriftGivesNo(fragment, text, d.symbol);
      }
    }
  }

  /** The condition is not idle, for a .config that a hand has edited: it can hold the surviving line
      and overrule it further down, and only the policy check sees that. */
  lemma {:induction false} SurvivedYetOverruled(symbol: string)
    requires IsSymbol(symbol)
    ensures var fragment := Unlines([ValueLine(symbol, "y")]);
            var text := Unlines([ValueLine(symbol, "y"), NotSetLine(symbol)]);
            Passes(fragment, text) && LastVerdict(Body(Split(text, '\n')), symbol) == N
  {
    var yes, no := ValueLine(symbol, "y"), NotSetLine(symbol);
    SymbolHasNo(symbol, '\n');
    TextOf([yes]);
    TextOf([yes, no]);
    ValueNotNotSet(yes);
    ValueDecides(symbol, "y");
    Overruled(symbol);
  }

  lemma {:induction false} TextOf(lines: seq<string>)
    requires forall l :: l in lines ==> '\n' !in l
    ensures ReadLines(Unlines(lines)) == FileLines(Unlines(lines)) == lines
    ensures Split(Unlines(lines), '\n') == lines + [""]
  {
    var text := Unlines(lines);
    assert text + "" == text;
    SplitUnlines(lines, "");
    SplitNone("", '\n');
    assert (lines + [""])[..|lines|] == lines;
  }

  lemma {:induction false} Overruled(symbol: string)
    requires IsSymbol(symbol)
    ensures LastVerdict(Body([ValueLine(symbol, "y"), NotSetLine(symbol)] + [""]), symbol) == N
  {
    var no := NotSetLine(symbol);
    var lines := [ValueLine(symbol, "y"), no] + [""];
    NeverTitle(symbol, "y");
    TitleChars("");
    assert forall l :: l in lines ==> !Contains(l, TITLE);
    assert TitleAt(lines) == |lines|;
    assert TrimPrefix(no, HASH_PREFIX) == symbol + NOT_SET;
    assert TrimSuffix(symbol + NOT_SET, NOT_SET) == symbol;
    EmptyIsSilent(symbol);
    assert LastWord(Verdicts(lines), symbol, N, 1);
    LastWordDecides(Verdicts(lines), symbol, N, 1);
  }
}
