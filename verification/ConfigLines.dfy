/** The line language that fragments and .config files share, and the three ways the tools cut a
    text into lines. */
module ConfigLines {
  import opened Wrappers
  import opened Text

  const PREFIX := "CONFIG_"
  const HASH_PREFIX := "# CONFIG_"
  const NOT_SET := " is not set"

  predicate SymbolChar(c: char) {
    'A' <= c <= 'Z' || '0' <= c <= '9' || c == '_'
  }

  /** [A-Z0-9_]+, the part of a symbol behind "CONFIG_". */
  predicate IsSymbol(s: string) {
    s != "" && forall i :: 0 <= i < |s| ==> SymbolChar(s[i])
  }

  function ValueLine(symbol: string, value: string): string {
    PREFIX + symbol + "=" + value
  }

  function NotSetLine(symbol: string): string {
    HASH_PREFIX + symbol + NOT_SET
  }

  /* ----- lines of a text ----- */

  function Unlines(lines: seq<string>): string {
    if lines == [] then "" else lines[0] + "\n" + Unlines(lines[1..])
  }

  /** `while read`: a last line without its newline is not seen. */
  function ReadLines(text: string): seq<string> {
    var pieces := Split(text, '\n');
    pieces[..|pieces| - 1]
  }

  /** grep, sed and awk: a last line without its newline counts. */
  function FileLines(text: string): seq<string> {
    var pieces := Split(text, '\n');
    if pieces[|pieces| - 1] == "" then pieces[..|pieces| - 1] else pieces
  }

  lemma {:induction false} UnlinesCons(lines: seq<string>, rest: string)
    requires lines != []
    ensures Unlines(lines) + rest == lines[0] + ['\n'] + (Unlines(lines[1..]) + rest)
  {
  }

  /** The pieces of newline-terminated lines, before those of whatever follows them. */
  lemma {:induction false} SplitUnlines(lines: seq<string>, rest: string)
    requires forall l :: l in lines ==> '\n' !in l
    ensures Split(Unlines(lines) + rest, '\n') == lines + Split(rest, '\n')
  {
    if lines == [] {
      assert Unlines(lines) + rest == rest;
    } else {
      UnlinesCons(lines, rest);
      SplitFirst(lines[0], Unlines(lines[1..]) + rest, '\n');
      SplitUnlines(lines[1..], rest);
      ConsCat(lines, Split(rest, '\n'));
    }
  }

  lemma {:induction false} ConsCat(lines: seq<string>, more: seq<string>)
    requires lines != []
    ensures [lines[0]] + (lines[1..] + more) == lines + more
  {
  }

  /** Newline-terminated lines read back. */
  lemma {:induction false} ReadLinesUnlines(lines: seq<string>, rest: string)
    requires forall l :: l in lines ==> '\n' !in l
    ensures ReadLines(Unlines(lines) + rest) == lines + ReadLines(rest)
    ensures FileLines(Unlines(lines) + rest) == lines + FileLines(rest)
  {
    SplitUnlines(lines, rest);
    AllButLastCat(lines, Split(rest, '\n'));
  }

  lemma {:induction false} AllButLastCat(a: seq<string>, b: seq<string>)
    requires b != []
    ensures (a + b)[..|a + b| - 1] == a + b[..|b| - 1] && (a + b)[|a + b| - 1] == b[|b| - 1]
  {
  }

  lemma {:induction false} FileLinesClean(text: string)
    ensures forall l :: l in FileLines(text) ==> '\n' !in l
  {
    forall l | l in FileLines(text) ensures '\n' !in l {
      var k :| 0 <= k < |FileLines(text)| && FileLines(text)[k] == l;
      SplitPieces(text, '\n', k);
    }
  }

  /** A line without its newline at the end of a text is what the two readings disagree on. */
  lemma {:induction false} ReadersAgreeIff(text: string)
    ensures ReadLines(text) == FileLines(text) <==> Split(text, '\n')[|Split(text, '\n')| - 1] == ""
    ensures ReadLines(text) <= FileLines(text)
  {
  }

  /* ----- what a line decides ----- */

  /** The shell pattern CONFIG_*=*. */
  predicate IsValue(line: string) {
    HasPrefix(line, PREFIX) && '=' in line[|PREFIX|..]
  }

  /** The shell pattern "# CONFIG_"*" is not set": the two literals may not share bytes. */
  predicate IsNotSet(line: string) {
    HasPrefix(line, HASH_PREFIX) && HasSuffix(line, NOT_SET) && |line| >= |HASH_PREFIX| + |NOT_SET|
  }

  /** Prefix and suffix test, as the Go reader does it, accept the same lines: the two literals
      cannot overlap. */
  lemma {:induction false} NotSetNoOverlap(line: string)
    requires HasPrefix(line, HASH_PREFIX) && HasSuffix(line, NOT_SET)
    ensures IsNotSet(line)
  {
    var p := |line| - |NOT_SET|;
    assert line[p..][0] == ' ' && line[p..][1] == 'i';
    assert forall i :: 0 <= i < |HASH_PREFIX| ==> line[i] == HASH_PREFIX[i];
  }

  /** Where the value of an assignment starts, less one: the first '='. */
  function Equals(line: string): nat {
    IndexOf(line, '=')
  }

  /** What a not-set line calls its symbol, without the "CONFIG_". */
  function NotSetSymbol(line: string): string
    requires IsNotSet(line)
  {
    line[|HASH_PREFIX|..|line| - |NOT_SET|]
  }

  /** The symbol a line decides for sed and awk: CONFIG_[A-Z0-9_]+= or
      "# CONFIG_[A-Z0-9_]+ is not set". */
  function Decides(line: string): Option<string> {
    if IsValue(line) then
      var i := Equals(line);
      if |PREFIX| <= i <= |line| && IsSymbol(line[|PREFIX|..i]) then Some(line[|PREFIX|..i]) else None
    else if IsNotSet(line) && IsSymbol(NotSetSymbol(line)) then Some(NotSetSymbol(line))
    else None
  }

  lemma {:induction false} ValueNotNotSet(line: string)
    ensures !(IsValue(line) && IsNotSet(line))
  {
    if IsValue(line) {
      assert line[0] == line[..|PREFIX|][0];
    }
  }

  lemma {:induction false} SymbolHasNo(s: string, c: char)
    requires IsSymbol(s) && !SymbolChar(c)
    ensures c !in s
  {
  }

  /** The lines a fragment author writes decide the symbol they name. */
  lemma {:induction false} ValueDecides(symbol: string, value: string)
    requires IsSymbol(symbol)
    ensures var line := ValueLine(symbol, value);
            IsValue(line) && Equals(line) == |PREFIX| + |symbol| && Decides(line) == Some(symbol)
  {
    var line := ValueLine(symbol, value);
    var head := PREFIX + symbol;
    SymbolHasNo(symbol, '=');
    assert line == head + ['='] + value;
    IndexOfAt(head, '=', value);
    assert line[|PREFIX|..][|symbol|] == '=';
    assert line[|PREFIX|..|head|] == symbol;
  }

  lemma {:induction false} NotSetDecides(symbol: string)
    requires IsSymbol(symbol)
    ensures var line := NotSetLine(symbol);
            IsNotSet(line) && NotSetSymbol(line) == symbol && Decides(line) == Some(symbol)
  {
    var line := NotSetLine(symbol);
    assert line[|HASH_PREFIX|..|line| - |NOT_SET|] == symbol;
  }

  /** ... and every line that decides a symbol is one of those two. */
  lemma {:induction false} DecidesShape(line: string)
    requires Decides(line).Some?
    ensures IsSymbol(Decides(line).value)
    ensures IsValue(line) ==> line == ValueLine(Decides(line).value, line[Equals(line) + 1..])
    ensures !IsValue(line) ==> IsNotSet(line) && line == NotSetLine(Decides(line).value)
  {
    if IsValue(line) {
      var i := Equals(line);
      assert line[..|line|] == line;
      assert line == line[..|PREFIX|] + line[|PREFIX|..i] + [line[i]] + line[i + 1..];
    } else {
      var s := NotSetSymbol(line);
      assert line == line[..|HASH_PREFIX|] + s + line[|line| - |NOT_SET|..];
    }
  }

  /** Two lines that assign the same symbol start alike; one that starts so assigns it. */
  lemma {:induction false} AssignsIff(line: string, symbol: string)
    requires IsSymbol(symbol)
    ensures HasPrefix(line, PREFIX + symbol + "=") <==> IsValue(line) && Decides(line) == Some(symbol)
  {
    if HasPrefix(line, PREFIX + symbol + "=") {
      var value := line[|PREFIX| + |symbol| + 1..];
      assert line == ValueLine(symbol, value);
      ValueDecides(symbol, value);
    }
    if IsValue(line) && Decides(line) == Some(symbol) {
      DecidesShape(line);
      var value := line[Equals(line) + 1..];
      assert ValueLine(symbol, value) == (PREFIX + symbol + "=") + value;
    }
  }
}
