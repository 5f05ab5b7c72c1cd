/** build.sh's check that the fragment names every symbol the tinyconfig base sets. */
module TinyBase {
  import opened Wrappers
  import opened Text
  import opened ConfigLines
  import opened BuildDrift

  predicate WordChar(c: char) {
    'a' <= c <= 'z' || 'A' <= c <= 'Z' || '0' <= c <= '9' || c == '_'
  }

  /** grep's \b: a word character on exactly one side of position `i`. */
  predicate Boundary(line: string, i: nat)
    requires i <= |line|
  {
    (i > 0 && WordChar(line[i - 1])) != (i < |line| && WordChar(line[i]))
  }

  predicate WordAt(line: string, word: string, i: nat) {
    i + |word| <= |line| && line[i..i + |word|] == word && Boundary(line, i) && Boundary(line, i + |word|)
  }

  /** Some line holds `word` between two boundaries. */
  predicate Mentions(line: string, word: string) {
    exists i | 0 <= i <= |line| :: WordAt(line, word, i)
  }

  predicate Named(fragment: seq<string>, word: string) {
    exists l | l in fragment :: Mentions(l, word)
  }

  /** ${line%%=*}: the symbol with its "CONFIG_". */
  function LongSymbol(line: string): string {
    line[..Equals(line)]
  }

  predicate AllNamed(tiny: seq<string>, fragment: seq<string>) {
    forall l | l in tiny :: IsValue(l) ==> Named(fragment, LongSymbol(l))
  }

  /** The loop over tiny.config. */
  method CheckNamed(tiny: string, fragment: string) returns (unnamed: bool)
    ensures unnamed <==> !AllNamed(ReadLines(tiny), FileLines(fragment))
  {
    unnamed := false;
    var lines, named := ReadLines(tiny), FileLines(fragment);
    for i := 0 to |lines|
      invariant unnamed <==> !AllNamed(lines[..i], named)
    {
      var line := lines[i];
      assert lines[..i + 1] == lines[..i] + [line];
      NamedSnoc(lines[..i], line, named);
      if IsValue(line) {
        if !Named(named, LongSymbol(line)) {
          unnamed := true;
        }
      }
    }
    assert lines[..|lines|] == lines;
  }

  lemma {:induction false} NamedSnoc(tiny: seq<string>, line: string, fragment: seq<string>)
    ensures AllNamed(tiny + [line], fragment)
       <==> AllNamed(tiny, fragment) && (IsValue(line) ==> Named(fragment, LongSymbol(line)))
  {
    if AllNamed(tiny + [line], fragment) {
      assert line in tiny + [line];
      forall l | l in tiny ensures IsValue(l) ==> Named(fragment, LongSymbol(l)) { assert l in tiny + [line]; }
    }
  }

  lemma {:induction false} ValueMentions(symbol: string, value: string)
    requires IsSymbol(symbol)
    ensures Mentions(ValueLine(symbol, value), PREFIX + symbol)
  {
    SymbolEndsInWord(symbol);
    WordBetween("", PREFIX + symbol, "=" + value);
    assert "" + (PREFIX + symbol) == PREFIX + symbol;
    assert (PREFIX + symbol) + ("=" + value) == ValueLine(symbol, value);
  }

  lemma {:induction false} HashedSymbol(symbol: string)
    ensures "# " + (PREFIX + symbol) == HASH_PREFIX + symbol
  {
    assert "# " + PREFIX == HASH_PREFIX;
  }

  lemma {:induction false} NotSetMentions(symbol: string)
    requires IsSymbol(symbol)
    ensures Mentions(NotSetLine(symbol), PREFIX + symbol)
  {
    SymbolEndsInWord(symbol);
    WordBetween("# ", PREFIX + symbol, NOT_SET);
    HashedSymbol(symbol);
  }

  /** A line that decides a symbol mentions it as a word. */
  lemma {:induction false} DecidingMentions(line: string)
    requires Decides(line).Some?
    ensures Mentions(line, PREFIX + Decides(line).value)
  {
    DecidesShape(line);
    if IsValue(line) {
      ValueMentions(Decides(line).value, line[Equals(line) + 1..]);
    } else {
      NotSetMentions(Decides(line).value);
    }
  }

  lemma {:induction false} SymbolEndsInWord(symbol: string)
    requires IsSymbol(symbol)
    ensures var word := PREFIX + symbol; WordChar(word[0]) && WordChar(word[|word| - 1])
  {
    var word := PREFIX + symbol;
    assert word[|word| - 1] == symbol[|symbol| - 1] && word[0] == 'C';
  }

  /** A word with no word character next to it is mentioned. */
  lemma {:induction false} WordBetween(before: string, word: string, after: string)
    requires word != "" && WordChar(word[0]) && WordChar(word[|word| - 1])
    requires before == "" || !WordChar(before[|before| - 1])
    requires after == "" || !WordChar(after[0])
    ensures Mentions(before + word + after, word)
  {
    var line, i, j := before + word + after, |before|, |before| + |word|;
    assert line[i..j] == word && line[i] == word[0] && line[j - 1] == word[|word| - 1];
    assert i > 0 ==> line[i - 1] == before[i - 1];
    assert j < |line| ==> line[j] == after[0];
    assert WordAt(line, word, i);
  }

  /** The fragment has a line that decides the symbol of `t`. */
  predicate Decided(fragment: seq<string>, t: string) {
    exists l | l in fragment :: SameSymbol(l, t)
  }

  /** The fragment has a line that mentions the symbol of `t` and does not decide it. */
  predicate Remarked(fragment: seq<string>, t: string)
    requires IsValue(t)
  {
    exists l | l in fragment :: Mentions(l, LongSymbol(t)) && !SameSymbol(l, t)
  }

  /** What the check asks is less than a decision on every symbol, by exactly this much: the two agree
      for the fragments that decide whatever a remark of theirs mentions. */
  lemma {:induction false} GateIsExact(tiny: seq<string>, fragment: seq<string>)
    requires WellFormed(tiny)
    ensures (forall t :: t in tiny && IsValue(t) ==> Decided(fragment, t))
       <==> AllNamed(tiny, fragment)
            && forall t :: t in tiny && IsValue(t) && Remarked(fragment, t) ==> Decided(fragment, t)
  {
    forall t | t in tiny && IsValue(t)
      ensures Decided(fragment, t) ==> Named(fragment, LongSymbol(t))
      ensures Named(fragment, LongSymbol(t)) ==> Decided(fragment, t) || Remarked(fragment, t)
    {
      DecidesShape(t);
      assert LongSymbol(t) == PREFIX + Decides(t).value;
      if l :| l in fragment && SameSymbol(l, t) {
        DecidingMentions(l);
      }
    }
  }

  /** For a symbol, being mentioned is standing there with no word character on either side. */
  lemma {:induction false} WordAtIff(line: string, word: string, i: nat)
    requires i <= |line| && word != "" && WordChar(word[0]) && WordChar(word[|word| - 1])
    ensures WordAt(line, word, i) <==>
              && i + |word| <= |line| && line[i..i + |word|] == word
              && (i == 0 || !WordChar(line[i - 1]))
              && (i + |word| == |line| || !WordChar(line[i + |word|]))
  {
    if i + |word| <= |line| && line[i..i + |word|] == word {
      assert line[i] == word[0] && line[i + |word| - 1] == word[|word| - 1];
    }
  }

  /** A line about a longer symbol does not mention the shorter one it begins with. */
  lemma {:induction false} LongerIsNoMention(symbol: string, more: string)
    requires IsSymbol(symbol) && IsSymbol(more)
    ensures !Mentions(NotSetLine(symbol + more), PREFIX + symbol)
  {
    var line, word := NotSetLine(symbol + more), PREFIX + symbol;
    SymbolEndsInWord(symbol);
    forall i | 0 <= i <= |line| ensures !WordAt(line, word, i) {
      WordAtIff(line, word, i);
      if i < |line| { LongerAt(symbol, more, i); }
    }
  }

  /** Where in such a line a C can stand. */
  lemma {:induction false} LongerAt(symbol: string, more: string, i: nat)
    requires IsSymbol(symbol) && IsSymbol(more) && i < |NotSetLine(symbol + more)|
    ensures var line, end := NotSetLine(symbol + more), |HASH_PREFIX| + |symbol| + |more|;
            && (i < 2 || i >= end ==> line[i] != 'C')
            && (2 < i <= end ==> WordChar(line[i - 1]))
            && (i == 2 ==> WordChar(line[i + |PREFIX| + |symbol|]))
  {
    var line := NotSetLine(symbol + more);
    assert line == HASH_PREFIX + symbol + more + NOT_SET;
  }

  const REMARK := "# about "

  lemma {:induction false} RemarkDecidesNothing(a: string, b: string)
    ensures Decides(REMARK + a + b).None?
  {
    var line := REMARK + a + b;
    assert line[0] == '#' && line[2] == 'a';
    PrefixChar(line, PREFIX, 0);
    PrefixChar(line, HASH_PREFIX, 2);
  }

  lemma {:induction false} LongSymbolOf(symbol: string, value: string)
    requires IsSymbol(symbol)
    ensures IsValue(ValueLine(symbol, value)) && LongSymbol(ValueLine(symbol, value)) == PREFIX + symbol
  {
    ValueDecides(symbol, value);
  }

  lemma {:induction false} OneNamed(tiny: string, line: string)
    requires IsValue(tiny) && Mentions(line, LongSymbol(tiny))
    ensures AllNamed([tiny], [line])
  {
    assert line in [line];
  }

  /** The difference is real: a remark alone passes the check and decides nothing. */
  lemma {:induction false} RemarkNames(symbol: string, value: string, remark: string)
    requires IsSymbol(symbol) && (remark == "" || !WordChar(remark[0]))
    ensures var line := REMARK + (PREFIX + symbol) + remark;
            AllNamed([ValueLine(symbol, value)], [line]) && Decides(line).None?
  {
    var word := PREFIX + symbol;
    LongSymbolOf(symbol, value);
    SymbolEndsInWord(symbol);
    WordBetween(REMARK, word, remark);
    OneNamed(ValueLine(symbol, value), REMARK + word + remark);
    RemarkDecidesNothing(word, remark);
  }
}
