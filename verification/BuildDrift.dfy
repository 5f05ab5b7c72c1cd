/** build.sh's check that every line of the fragment survived olddefconfig. */
module BuildDrift {
  import opened Wrappers
  import opened Text
  import opened ConfigLines

  /** ${line#"# "} less " is not set": the symbol the second grep looks for. */
  function ShellSymbol(line: string): string
    requires IsNotSet(line)
  {
    line[2..|line| - |NOT_SET|]
  }

  /** Some line of the .config starts with `start`. */
  predicate AnyStarts(config: seq<string>, start: string) {
    exists c | c in config :: HasPrefix(c, start)
  }

  /** What the loop asks of one fragment line: an assignment is there verbatim, a symbol said to be
      off is not assigned. Lines of neither shape ask nothing. */
  predicate Survives(line: string, config: seq<string>) {
    && (IsValue(line) ==> line in config)
    && (IsNotSet(line) ==> !AnyStarts(config, ShellSymbol(line) + "="))
  }

  predicate AllSurvive(lines: seq<string>, config: seq<string>) {
    forall l | l in lines :: Survives(l, config)
  }

  /** The build goes on with this fragment and this .config. */
  predicate Passes(fragment: string, config: string) {
    AllSurvive(ReadLines(fragment), FileLines(config))
  }

  /** The post-olddefconfig loop. */
  method CheckDrift(fragment: string, config: string) returns (drift: bool)
    ensures drift <==> !Passes(fragment, config)
  {
    drift := false;
    var lines, dotConfig := ReadLines(fragment), FileLines(config);
    for i := 0 to |lines|
      invariant drift <==> !AllSurvive(lines[..i], dotConfig)
    {
      var line := lines[i];
      assert lines[..i + 1] == lines[..i] + [line];
      AllSurviveCat(lines[..i], [line], dotConfig);
      assert AllSurvive([line], dotConfig) <==> Survives(line, dotConfig) by {
        assert line in [line];
      }
      ValueNotNotSet(line);
      if IsValue(line) {
        if line !in dotConfig {
          drift := true;
        }
      } else if IsNotSet(line) {
        var sym := ShellSymbol(line);
        if AnyStarts(dotConfig, sym + "=") {
          drift := true;
        }
      }
    }
    assert lines[..|lines|] == lines;
  }

  lemma {:induction false} AllSurviveCat(a: seq<string>, b: seq<string>, config: seq<string>)
    ensures AllSurvive(a + b, config) <==> AllSurvive(a, config) && AllSurvive(b, config)
  {
    if AllSurvive(a + b, config) {
      forall l | l in a ensures Survives(l, config) { assert l in a + b; }
      forall l | l in b ensures Survives(l, config) { assert l in a + b; }
    }
  }

  /* ----- which fragments a .config can meet ----- */

  /** Every line the check looks at names a proper symbol. */
  ghost predicate WellFormed(lines: seq<string>) {
    forall l :: l in lines && (IsValue(l) || IsNotSet(l)) ==> Decides(l).Some?
  }

  /** Two lines about one symbol. */
  predicate SameSymbol(a: string, b: string) {
    Decides(a).Some? && Decides(a) == Decides(b)
  }

  /** No two lines say different things about one symbol. */
  ghost predicate Coherent(lines: seq<string>) {
    forall a, b :: a in lines && b in lines && SameSymbol(a, b) ==> a == b
  }

  /** No symbol is given two different values. */
  ghost predicate SingleValued(config: seq<string>) {
    forall a, b :: a in config && b in config && IsValue(a) && IsValue(b) && SameSymbol(a, b) ==> a == b
  }

  /** What a well-formed line asks, in terms of symbols. */
  lemma {:induction false} SurvivesSymbol(line: string, config: seq<string>)
    requires Decides(line).Some? && !IsValue(line)
    ensures Survives(line, config) <==>
              forall c :: c in config && IsValue(c) ==> Decides(c) != Decides(line)
  {
    var symbol := Decides(line).value;
    DecidesShape(line);
    var start := ShellSymbol(line) + "=";
    assert start == PREFIX + symbol + "=" by {
      assert line[2..|line| - |NOT_SET|] == PREFIX + symbol;
    }
    forall c | c in config ensures HasPrefix(c, start) <==> IsValue(c) && Decides(c) == Some(symbol) {
      AssignsIff(c, symbol);
    }
  }

  function ValuesOf(lines: seq<string>): seq<string> {
    if lines == [] then []
    else (if IsValue(lines[0]) then [lines[0]] else []) + ValuesOf(lines[1..])
  }

  lemma {:induction false} ValuesOfMember(lines: seq<string>, l: string)
    ensures l in ValuesOf(lines) <==> l in lines && IsValue(l)
  {
    if lines != [] {
      ValuesOfMember(lines[1..], l);
      assert lines == [lines[0]] + lines[1..];
    }
  }

  /** A well-formed fragment can pass, for a .config that gives each symbol one value, exactly when
      it does not contradict itself; its own assignments are then such a .config. */
  lemma {:induction false} CoherentIsSatisfiable(lines: seq<string>)
    requires WellFormed(lines)
    ensures Coherent(lines) <==> exists config :: SingleValued(config) && AllSurvive(lines, config)
    ensures Coherent(lines) ==> SingleValued(ValuesOf(lines)) && AllSurvive(lines, ValuesOf(lines))
  {
    if Coherent(lines) {
      var config := ValuesOf(lines);
      forall l ensures l in config <==> l in lines && IsValue(l) {
        ValuesOfMember(lines, l);
      }
      forall l | l in lines ensures Survives(l, config) {
        ValueNotNotSet(l);
        if IsNotSet(l) {
          SurvivesSymbol(l, config);
        }
      }
      assert SingleValued(config) && AllSurvive(lines, config);
    }
    if config :| SingleValued(config) && AllSurvive(lines, config) {
      forall a, b | a in lines && b in lines && SameSymbol(a, b) ensures a == b {
        SurvivorsAgree(a, b, config);
      }
    }
  }

  /** Two surviving lines about one symbol are the same line. */
  lemma {:induction false} SurvivorsAgree(a: string, b: string, config: seq<string>)
    requires SingleValued(config) && Survives(a, config) && Survives(b, config)
    requires SameSymbol(a, b)
    ensures a == b
  {
    DecidesShape(a);
    DecidesShape(b);
    if !IsValue(a) { SurvivesSymbol(a, config); }
    if !IsValue(b) { SurvivesSymbol(b, config); }
  }

  /** A symbol both assigned and said to be off survives in no .config at all, single-valued or
      not. */
  lemma {:induction false} SetAndUnsetNeverSurvive(a: string, b: string, config: seq<string>)
    requires SameSymbol(a, b) && IsValue(a) && !IsValue(b)
    ensures !(Survives(a, config) && Survives(b, config))
  {
    SurvivesSymbol(b, config);
  }
}
