/** The golden snapshot as a file: how cmd/ikconfig prints it and reads it back. */
module GoldenFile {
  import opened Wrappers
  import opened Text
  import opened ConfigLines
  import opened Ikconfig

  function Print(golden: seq<string>): string {
    Join(golden, '\n') + "\n"
  }

  function Read(text: string): seq<string> {
    Split(TrimSuffix(text, "\n"), '\n')
  }

  /** What is printed is every line with its newline, and for no line a newline alone. */
  lemma {:induction false} PrintIs(golden: seq<string>)
    ensures Print(golden) == if golden == [] then "\n" else Unlines(golden)
  {
    if |golden| > 1 {
      PrintIs(golden[1..]);
      assert golden[0] + ['\n'] + Join(golden[1..], '\n') + "\n"
          == golden[0] + "\n" + (Join(golden[1..], '\n') + "\n");
    } else if |golden| == 1 {
      assert golden[1..] == [] && golden[0] + "\n" + "" == golden[0] + "\n";
    }
  }

  /** Reading undoes printing exactly when there is a line at all: the empty set reads back as one
      empty line. */
  lemma {:induction false} RoundTripIff(golden: seq<string>)
    requires forall l :: l in golden ==> '\n' !in l
    ensures Read(Print(golden)) == golden <==> golden != []
    ensures golden == [] ==> Read(Print(golden)) == [""]
  {
    var joined := Join(golden, '\n');
    assert TrimSuffix(joined + "\n", "\n") == joined;
    if golden == [] {
      SplitNone("", '\n');
    } else {
      SplitJoin(golden, '\n');
    }
  }

  lemma {:induction false} GoldenOfMember(lines: seq<string>, l: string)
    ensures l in GoldenOf(lines) <==> l in lines && GoldenLine(l)
  {
    if lines != [] {
      var front, last := lines[..|lines| - 1], lines[|lines| - 1];
      GoldenOfMember(front, l);
      assert lines == front + [last];
    }
  }

  /** The golden lines of a parsed file are exactly its matching lines, less the title line, with
      their multiplicities. */
  lemma {:induction false} GoldenCounts(lines: seq<string>, l: string)
    ensures multiset(GoldenOf(lines))[l] == if GoldenLine(l) then multiset(lines)[l] else 0
  {
    if lines != [] {
      var front, last := lines[..|lines| - 1], lines[|lines| - 1];
      GoldenCounts(front, l);
      assert lines == front + [last];
    }
  }

  lemma {:induction false} DropAtMember(lines: seq<string>, n: nat, l: string)
    ensures l in DropAt(lines, n) ==> l in lines
    ensures l in lines && (n < |lines| ==> l != lines[n]) ==> l in DropAt(lines, n)
  {
    if l in lines && n < |lines| && l != lines[n] {
      var i :| 0 <= i < |lines| && lines[i] == l;
      if i < n { assert l in lines[..n]; } else { assert l in lines[n + 1..]; }
    }
  }

  lemma {:induction false} ParsedMember(config: Config, lines: seq<string>, l: string)
    requires Reads(config, lines)
    ensures l in config.golden <==> l in Body(lines) && GoldenLine(l)
  {
    GoldenOfMember(Body(lines), l);
    assert l in config.golden <==> l in multiset(config.golden);
    assert l in GoldenOf(Body(lines)) <==> l in multiset(GoldenOf(Body(lines)));
  }

  lemma {:induction false} ParsedHasLines(config: Config, text: string)
    requires Reads(config, Split(text, '\n'))
    ensures forall l :: l in config.golden ==> '\n' !in l
  {
    var lines := Split(text, '\n');
    forall l | l in config.golden ensures '\n' !in l {
      ParsedMember(config, lines, l);
      DropAtMember(lines, TitleAt(lines), l);
      var k :| 0 <= k < |lines| && lines[k] == l;
      SplitPieces(text, '\n', k);
    }
  }

  /** A snapshot taken from a config shows no drift against that config, unless it is empty; then
      Verify can only fail. */
  lemma {:induction false} SnapshotMatchesIff(config: Config, text: string)
    requires Reads(config, Split(text, '\n'))
    ensures SameLines(Read(Print(config.golden)), config.golden) <==> config.golden != []
  {
    ParsedHasLines(config, text);
    RoundTripIff(config.golden);
    if config.golden == [] {
      assert "" in [""];
    }
  }

  /** `ikconfig golden` then `ikconfig verify` on one image: Verify answers for the policy alone when
      anything is decided, and fails when nothing is. */
  method SnapshotThenVerify(text: string, policy: seq<Section>) returns (config: Config, ok: bool)
    ensures Reads(config, Split(text, '\n'))
    ensures ok <==> AllMet(config, policy) && config.golden != []
  {
    config := Parse(text);
    SnapshotMatchesIff(config, text);
    ok := Verify(config, policy, Some(Read(Print(config.golden))));
  }
}
