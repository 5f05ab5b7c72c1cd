/** `ikconfig verify`: what a kernel image has to hold for the check to pass, told by its lines
    (cmd/ikconfig). */
module ConfigCheck {
  import opened Wrappers
  import opened Text
  import opened ConfigLines
  import opened Ikconfig
  import opened GoldenFile
  import opened Extract
  import opened ConfigPipeline
  import opened Status

  /* ----- which lines speak of a symbol ----- */

  lemma {:induction false} NotSetSays(symbol: string)
    ensures Verdict(NotSetLine(symbol)) == Some((symbol, N))
  {
    var line := NotSetLine(symbol);
    assert TrimPrefix(line, HASH_PREFIX) == symbol + NOT_SET;
    assert TrimSuffix(symbol + NOT_SET, NOT_SET) == symbol;
  }

  lemma {:induction false} NotSetOnly(line: string, symbol: string)
    requires Verdict(line) == Some((symbol, N))
    ensures line == NotSetLine(symbol)
  {
    NotSetNoOverlap(line);
    var rest := line[|HASH_PREFIX|..];
    assert HasSuffix(rest, NOT_SET) by {
      assert rest[|rest| - |NOT_SET|..] == line[|line| - |NOT_SET|..];
    }
    assert rest == symbol + NOT_SET;
    assert line == HASH_PREFIX + rest;
    assert HASH_PREFIX + (symbol + NOT_SET) == NotSetLine(symbol);
  }

  lemma {:induction false} ValueOnly(line: string, symbol: string, value: string, state: State)
    requires Verdict(line) == Some((symbol, state)) && (state == Y || state == M)
    requires value == if state == Y then "y" else "m"
    ensures line == ValueLine(symbol, value)
  {
    var rest := line[|PREFIX|..];
    var i := IndexOf(rest, '=');
    assert rest[..i] == symbol && rest[i + 1..] == value;
    CutAt(rest, i);
    assert line == PREFIX + rest;
    GlueValue(symbol, value);
  }

  /** The Go reader's verdict on a line, symbol by symbol: CONFIG_X=y, CONFIG_X=m and
      "# CONFIG_X is not set" give X a state, and no other line does. */
  lemma {:induction false} VerdictIff(line: string, symbol: string)
    requires IsSymbol(symbol)
    ensures Verdict(line) == Some((symbol, Y)) <==> line == ValueLine(symbol, "y")
    ensures Verdict(line) == Some((symbol, M)) <==> line == ValueLine(symbol, "m")
    ensures Verdict(line) == Some((symbol, N)) <==> line == NotSetLine(symbol)
    ensures Silent(Verdict(line), symbol) <==>
              line != ValueLine(symbol, "y") && line != ValueLine(symbol, "m") && line != NotSetLine(symbol)
  {
    VerdictOfValue(symbol, "y");
    VerdictOfValue(symbol, "m");
    NotSetSays(symbol);
    VerdictNeverAbsent(line);
    if Verdict(line) == Some((symbol, Y)) { ValueOnly(line, symbol, "y", Y); }
    if Verdict(line) == Some((symbol, M)) { ValueOnly(line, symbol, "m", M); }
    if Verdict(line) == Some((symbol, N)) { NotSetOnly(line, symbol); }
  }

  /** Some line says CONFIG_X=y, and no later one makes X a module or says that it is not set. */
  ghost predicate SaysYes(lines: seq<string>, symbol: string) {
    exists k :: 0 <= k < |lines| && lines[k] == ValueLine(symbol, "y") && NoOtherAfter(lines, symbol, k)
  }

  ghost predicate NoOtherAfter(lines: seq<string>, symbol: string, k: int) {
    forall j :: k < j < |lines| && j >= 0 ==> lines[j] != ValueLine(symbol, "m") && lines[j] != NotSetLine(symbol)
  }

  /** The symbol's last word is y. */
  ghost predicate LastIsYes(lines: seq<string>, symbol: string) {
    exists k :: LastWord(Verdicts(lines), symbol, Y, k)
  }

  lemma {:induction false} LastIsYesIff(lines: seq<string>, symbol: string)
    requires IsSymbol(symbol)
    ensures LastIsYes(lines, symbol) <==> SaysYes(lines, symbol)
  {
    forall j | 0 <= j < |lines|
      ensures Verdicts(lines)[j] == Verdict(lines[j])
      ensures Verdict(lines[j]) == Some((symbol, Y)) <==> lines[j] == ValueLine(symbol, "y")
      ensures Silent(Verdict(lines[j]), symbol) <==>
                lines[j] != ValueLine(symbol, "y") && lines[j] != ValueLine(symbol, "m")
                && lines[j] != NotSetLine(symbol)
    {
      VerdictIff(lines[j], symbol);
    }
    if k: nat :| LastWord(Verdicts(lines), symbol, Y, k) {
      assert lines[k] == ValueLine(symbol, "y") && NoOtherAfter(lines, symbol, k);
    }
    if SaysYes(lines, symbol) {
      var l := ValueLine(symbol, "y");
      var k0 :| 0 <= k0 < |lines| && lines[k0] == l && NoOtherAfter(lines, symbol, k0);
      assert l in lines;
      var k := LastLine(lines, l);
      assert k0 <= k;
      assert LastWord(Verdicts(lines), symbol, Y, k);
    }
  }

  /* ----- the check ----- */

  /** The decision is met: a wanted symbol's last word is y, an unwanted one's is not. */
  ghost predicate Decided(lines: seq<string>, d: Decision) {
    if d.want == WantY then LastIsYes(lines, d.symbol) else !LastIsYes(lines, d.symbol)
  }

  ghost predicate AllDecided(lines: seq<string>, policy: seq<Section>) {
    forall s, d :: s in policy && d in s.decisions ==> Decided(lines, d)
  }

  lemma {:induction false} PolicyIff(config: Config, lines: seq<string>, policy: seq<Section>)
    requires Reads(config, lines)
    ensures AllMet(config, policy) <==> AllDecided(Body(lines), policy)
  {
    forall s, d | s in policy && d in s.decisions
      ensures d.want.Met(config.StateOf(d.symbol)) <==> Decided(Body(lines), d)
    {
      LastVerdictIff(Body(lines), d.symbol, Y);
    }
  }

  /** The golden lines are the plain and quoted assignments of the file, as a set. */
  ghost predicate GoldenAgrees(golden: seq<string>, lines: seq<string>) {
    forall l :: l in golden <==> l in Body(lines) && GoldenLine(l)
  }

  lemma {:induction false} GoldenIff(config: Config, lines: seq<string>, golden: seq<string>)
    requires Reads(config, lines)
    ensures SameLines(golden, config.golden) <==> GoldenAgrees(golden, lines)
  {
    forall l ensures l in config.golden <==> l in Body(lines) && GoldenLine(l) {
      ParsedMember(config, lines, l);
    }
  }

  /** verifyCmd.Run: `golden` is the committed file, if there is one. It passes exactly when every
      wanted symbol's last word is y, no unwanted one's is, and the golden file holds the image's golden
      lines and no others. */
  method VerifyImage(
    image: string, decode: string -> Option<string>, policy: seq<Section>, golden: Option<string>)
    returns (r: Result<bool, ExtractError>)
    ensures match ExtractConfig(image, decode)
            case Err(e) => r == Err(e)
            case Ok(text) =>
              if text == "" then r == Err(NoConfig)
              else r.Ok? && (r.value <==>
                     AllDecided(Body(Split(text, '\n')), policy)
                     && (golden.Some? ==> GoldenAgrees(Read(golden.value), Split(text, '\n'))))
  {
    match ExtractConfig(image, decode) {
      case Err(e) => r := Err(e);
      case Ok(text) =>
        if |text| == 0 {
          return Err(NoConfig);
        }
        var ok := VerifyText(text, policy, if golden.Some? then Some(Read(golden.value)) else None);
        r := Ok(ok);
    }
  }

  method VerifyText(text: string, policy: seq<Section>, golden: Option<seq<string>>) returns (ok: bool)
    ensures ok <==> AllDecided(Body(Split(text, '\n')), policy)
                    && (golden.Some? ==> GoldenAgrees(golden.value, Split(text, '\n')))
  {
    var config := Parse(text);
    PolicyIff(config, Split(text, '\n'), policy);
    if golden.Some? {
      GoldenIff(config, Split(text, '\n'), golden.value);
    }
    ok := Verify(config, policy, golden);
  }

  /* ----- which assignments are golden ----- */

  /** y, m, every decimal number, every hexadecimal one and every quoted string counts; n, nothing, a
      negative number and a not-set line do not. */
  lemma {:induction false} GoldenValues(symbol: string, n: nat, hex: string, text: string)
    requires IsSymbol(symbol) && HexDigits(hex) && '\n' !in text
    ensures GoldenLine(ValueLine(symbol, "y")) && GoldenLine(ValueLine(symbol, "m"))
    ensures GoldenLine(ValueLine(symbol, Decimal(n))) && GoldenLine(ValueLine(symbol, "0x" + hex))
    ensures GoldenLine(ValueLine(symbol, "\"" + text + "\""))
    ensures !GoldenLine(ValueLine(symbol, "n")) && !GoldenLine(ValueLine(symbol, ""))
    ensures !GoldenLine(ValueLine(symbol, "-" + Decimal(n))) && !GoldenLine(NotSetLine(symbol))
  {
    PlainNumbers(n, hex);
    QuotedText(text);
    NotPlain(n);
    GoldenOfValue(symbol, "y");
    GoldenOfValue(symbol, "m");
    GoldenOfValue(symbol, Decimal(n));
    GoldenOfValue(symbol, "0x" + hex);
    GoldenOfValue(symbol, "\"" + text + "\"");
    GoldenOfValue(symbol, "n");
    GoldenOfValue(symbol, "");
    GoldenOfValue(symbol, "-" + Decimal(n));
    NotSetNotGolden(symbol);
  }

  lemma {:induction false} PlainNumbers(n: nat, hex: string)
    requires HexDigits(hex)
    ensures PlainValue(Decimal(n)) && PlainValue("0x" + hex)
  {
    DecimalDigits(n);
    assert ("0x" + hex)[2..] == hex;
  }

  lemma {:induction false} NotPlain(n: nat)
    ensures !PlainValue("n") && !Quoted("n") && !PlainValue("") && !Quoted("")
    ensures !PlainValue("-" + Decimal(n)) && !Quoted("-" + Decimal(n))
  {
    var v := "-" + Decimal(n);
    assert v[0] == '-' && v[0] != "y"[0] && v[0] != "m"[0] && v[0] < '0';
    assert "n"[0] == 'n' && "n"[0] != "y"[0] && "n"[0] != "m"[0] && "n"[0] > '9';
    PrefixChar(v, "0x", 0);
    PrefixChar("n", "0x", 0);
  }

  lemma {:induction false} NotSetNotGolden(symbol: string)
    ensures !GoldenLine(NotSetLine(symbol))
  {
    PrefixChar(NotSetLine(symbol), PREFIX, 0);
  }

  lemma {:induction false} QuotedText(text: string)
    requires '\n' !in text
    ensures Quoted("\"" + text + "\"")
  {
  }

  lemma {:induction false} GoldenOfValue(symbol: string, value: string)
    requires IsSymbol(symbol)
    ensures GoldenLine(ValueLine(symbol, value)) <==> PlainValue(value) || Quoted(value)
  {
    ValueDecides(symbol, value);
    var line, i := ValueLine(symbol, value), |PREFIX| + |symbol|;
    assert line[i + 1..] == value && line[|PREFIX|..i] == symbol;
  }
}
