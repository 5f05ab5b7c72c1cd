/** kernel/merge-fragments.sh: lay an overlay fragment over a base one. */
module MergeFragments {
  import opened Wrappers
  import opened Text
  import opened ConfigLines
  import opened BuildDrift

  /** The symbols sed collects from the overlay. */
  function DecidedBy(lines: seq<string>): set<string> {
    set l | l in lines && Decides(l).Some? :: Decides(l).value
  }

  /** The base lines awk lets through: those that decide nothing the overlay decides. */
  function Kept(lines: seq<string>, drop: set<string>): seq<string> {
    if lines == [] then []
    else (if Decides(lines[0]).Some? && Decides(lines[0]).value in drop then [] else [lines[0]])
         + Kept(lines[1..], drop)
  }

  function Header(name: string): string {
    "# ---- overlay: " + name + " ----"
  }

  /** The merged fragment; `name` is the overlay's base name. */
  function Merged(base: string, overlay: string, name: string): string {
    Unlines(Kept(FileLines(base), DecidedBy(FileLines(overlay)))) + Unlines(["", Header(name)]) + overlay
  }

  lemma {:induction false} KeptCat(a: seq<string>, b: seq<string>, drop: set<string>)
    ensures Kept(a + b, drop) == Kept(a, drop) + Kept(b, drop)
  {
    if a == [] {
      assert a + b == b;
    } else {
      assert (a + b)[1..] == a[1..] + b;
      KeptCat(a[1..], b, drop);
    }
  }

  lemma {:induction false} UnlinesCat(a: seq<string>, b: seq<string>)
    ensures Unlines(a + b) == Unlines(a) + Unlines(b)
  {
    if a == [] {
      assert a + b == b;
    } else {
      assert (a + b)[1..] == a[1..] + b;
      UnlinesCat(a[1..], b);
    }
  }

  lemma {:induction false} KeptMember(lines: seq<string>, drop: set<string>, l: string)
    ensures l in Kept(lines, drop) <==>
              l in lines && !(Decides(l).Some? && Decides(l).value in drop)
  {
    if lines != [] {
      KeptMember(lines[1..], drop, l);
      assert lines == [lines[0]] + lines[1..];
    }
  }

  lemma {:induction false} KeptSnoc(lines: seq<string>, line: string, drop: set<string>)
    ensures Unlines(Kept(lines + [line], drop)) == Unlines(Kept(lines, drop)) + Unlines(Kept([line], drop))
  {
    KeptCat(lines, [line], drop);
    UnlinesCat(Kept(lines, drop), Kept([line], drop));
  }

  /** What awk does with one line of the base. */
  method FilterLine(out: string, line: string, drop: set<string>) returns (out': string)
    ensures out' == out + Unlines(Kept([line], drop))
  {
    var sym := "";
    match Decides(line) {
      case Some(symbol) => sym := symbol; DecidesShape(line);
      case None =>
    }
    assert [line][1..] == [];
    if !(sym != "" && sym in drop) {
      assert Kept([line], drop) == [line] && Unlines([line]) == line + "\n";
      return out + line + "\n";
    }
    return out;
  }

  /** sed: the symbols the overlay decides. */
  method CollectSymbols(over: seq<string>) returns (drop: set<string>)
    ensures drop == DecidedBy(over)
  {
    drop := {};
    for i := 0 to |over|
      invariant drop == DecidedBy(over[..i])
    {
      assert over[..i + 1] == over[..i] + [over[i]];
      match Decides(over[i]) {
        case Some(symbol) => drop := drop + {symbol};
        case None =>
      }
    }
    assert over[..|over|] == over;
  }

  /** awk: the base, line by line. */
  method FilterBase(lines: seq<string>, drop: set<string>) returns (out: string)
    ensures out == Unlines(Kept(lines, drop))
  {
    out := "";
    ghost var read: seq<string> := [];
    for i := 0 to |lines|
      invariant read == lines[..i]
      invariant out == Unlines(Kept(read, drop))
    {
      ghost var next := read + [lines[i]];
      assert next == lines[..i + 1];
      KeptSnoc(read, lines[i], drop);
      out := FilterLine(out, lines[i], drop);
      read := next;
    }
    assert read == lines;
  }

  /** The script: collect the overlay's symbols, filter the base, append the overlay. */
  method Merge(base: string, overlay: string, name: string) returns (out: string)
    ensures out == Merged(base, overlay, name)
  {
    var drop := CollectSymbols(FileLines(overlay));
    out := FilterBase(FileLines(base), drop);
    TwoLines(name);
    out := out + ("\n" + Header(name) + "\n") + overlay;
  }

  lemma {:induction false} TwoLines(name: string)
    ensures Unlines(["", Header(name)]) == "\n" + Header(name) + "\n"
  {
    assert ["", Header(name)][1..] == [Header(name)] && [Header(name)][1..] == [];
    assert Unlines([Header(name)]) == Header(name) + "\n";
  }

  lemma {:induction false} HeaderIsNeutral(name: string)
    ensures !IsValue("") && !IsNotSet("") && !IsValue(Header(name)) && !IsNotSet(Header(name))
  {
    PrefixChar(Header(name), HASH_PREFIX, 2);
    PrefixChar(Header(name), PREFIX, 0);
    assert Header(name)[0] == '#' && Header(name)[2] == '-';
  }

  /** The lines the drift check reads from a merged fragment. */
  lemma {:induction false} MergedLines(base: string, overlay: string, name: string)
    requires '\n' !in name
    ensures ReadLines(Merged(base, overlay, name))
         == Kept(FileLines(base), DecidedBy(FileLines(overlay))) + ["", Header(name)] + ReadLines(overlay)
  {
    KeptClean(base, DecidedBy(FileLines(overlay)));
    HeaderClean(name);
    TwoBlocks(Kept(FileLines(base), DecidedBy(FileLines(overlay))), ["", Header(name)], overlay);
  }

  lemma {:induction false} KeptClean(base: string, drop: set<string>)
    ensures forall l :: l in Kept(FileLines(base), drop) ==> '\n' !in l
  {
    FileLinesClean(base);
    forall l | l in Kept(FileLines(base), drop) ensures '\n' !in l {
      KeptMember(FileLines(base), drop, l);
    }
  }

  lemma {:induction false} HeaderClean(name: string)
    requires '\n' !in name
    ensures forall l :: l in ["", Header(name)] ==> '\n' !in l
  {
  }

  lemma {:induction false} TwoBlocks(a: seq<string>, b: seq<string>, rest: string)
    requires forall l :: l in a || l in b ==> '\n' !in l
    ensures ReadLines(Unlines(a) + Unlines(b) + rest) == a + b + ReadLines(rest)
  {
    Assoc(Unlines(a), Unlines(b), rest);
    ReadLinesUnlines(b, rest);
    ReadLinesUnlines(a, Unlines(b) + rest);
    Assoc(a, b, ReadLines(rest));
  }

  lemma {:induction false} Assoc<T>(a: seq<T>, b: seq<T>, c: seq<T>)
    ensures a + b + c == a + (b + c)
  {
  }

  /** A merge is a true override: for every .config, the merged fragment survives exactly when the
      overlay does and the base does on each symbol the overlay leaves alone. */
  lemma {:induction false} MergeOverrides(base: string, overlay: string, name: string, config: string)
    requires '\n' !in name
    ensures Passes(Merged(base, overlay, name), config) <==>
              Passes(overlay, config)
              && forall l :: l in FileLines(base)
                   && !(Decides(l).Some? && Decides(l).value in DecidedBy(FileLines(overlay)))
                   ==> Survives(l, FileLines(config))
  {
    var drop, dotConfig := DecidedBy(FileLines(overlay)), FileLines(config);
    var kept, head := Kept(FileLines(base), drop), ["", Header(name)];
    MergedLines(base, overlay, name);
    AllSurviveCat(kept + head, ReadLines(overlay), dotConfig);
    AllSurviveCat(kept, head, dotConfig);
    HeaderIsNeutral(name);
    forall l ensures l in kept <==> l in FileLines(base) && !(Decides(l).Some? && Decides(l).value in drop) {
      KeptMember(FileLines(base), drop, l);
    }
  }

  /** A merge never contradicts itself: if neither input does, some .config with one value per
      symbol meets the result. */
  lemma {:induction false} MergeStaysCoherent(base: string, overlay: string, name: string)
    requires '\n' !in name
    requires Coherent(FileLines(base)) && Coherent(FileLines(overlay))
    ensures Coherent(ReadLines(Merged(base, overlay, name)))
  {
    var drop := DecidedBy(FileLines(overlay));
    var kept := Kept(FileLines(base), drop);
    MergedLines(base, overlay, name);
    ReadersAgreeIff(overlay);
    HeaderIsNeutral(name);
    forall l | l in kept
      ensures l in FileLines(base) && !(Decides(l).Some? && Decides(l).value in drop)
    {
      KeptMember(FileLines(base), drop, l);
    }
    forall l | l in ReadLines(overlay) ensures l in FileLines(overlay) {
    }
  }

  lemma {:induction false} MergeIsSatisfiable(base: string, overlay: string, name: string)
    requires '\n' !in name
    requires Coherent(FileLines(base)) && Coherent(FileLines(overlay))
    requires WellFormed(FileLines(base)) && WellFormed(FileLines(overlay))
    ensures exists config :: SingleValued(config) && AllSurvive(ReadLines(Merged(base, overlay, name)), config)
  {
    MergeStaysCoherent(base, overlay, name);
    MergedLines(base, overlay, name);
    HeaderIsNeutral(name);
    ReadersAgreeIff(overlay);
    var drop := DecidedBy(FileLines(overlay));
    forall l | l in Kept(FileLines(base), drop) ensures l in FileLines(base) {
      KeptMember(FileLines(base), drop, l);
    }
    forall l | l in ReadLines(overlay) ensures l in FileLines(overlay) {
    }
    CoherentIsSatisfiable(ReadLines(Merged(base, overlay, name)));
  }

  /** Plain concatenation does contradict itself: of two fragments that disagree about a symbol, it
      passes for no .config that gives each symbol one value, and for none whatever when one sets
      the symbol and the other says it is off. */
  lemma {:induction false} ConcatenationFails(base: string, overlay: string, a: string, b: string, config: string)
    requires ReadLines(base) == FileLines(base)
    requires a in ReadLines(base) && b in ReadLines(overlay) && a != b && SameSymbol(a, b)
    requires SingleValued(FileLines(config)) || IsValue(a) != IsValue(b)
    ensures !Passes(base + overlay, config)
  {
    ReadersAgreeIff(base);
    ConcatLines(base, overlay);
    AllSurviveCat(ReadLines(base), ReadLines(overlay), FileLines(config));
    Disagree(a, b, FileLines(config));
  }

  lemma {:induction false} Disagree(a: string, b: string, config: seq<string>)
    requires a != b && SameSymbol(a, b)
    requires SingleValued(config) || IsValue(a) != IsValue(b)
    ensures !(Survives(a, config) && Survives(b, config))
  {
    if IsValue(a) && !IsValue(b) {
      SetAndUnsetNeverSurvive(a, b, config);
    } else if !IsValue(a) && IsValue(b) {
      SetAndUnsetNeverSurvive(b, a, config);
    } else if Survives(a, config) && Survives(b, config) {
      SurvivorsAgree(a, b, config);
    }
  }

  /** A newline-terminated text contributes its own lines to a concatenation. */
  lemma {:induction false} ConcatLines(a: string, b: string)
    requires EndsInNewline(a)
    ensures ReadLines(a + b) == ReadLines(a) + ReadLines(b)
  {
    var i := IndexOf(a, '\n');
    if i == |a| {
      assert a[..i] == a;
      SplitNone(a, '\n');
      assert a + b == b;
    } else {
      var head, rest := a[..i], a[i + 1..];
      assert a == head + ['\n'] + rest;
      LineFirst(head, rest);
      LineFirst(head, rest + b);
      assert a + b == head + ['\n'] + (rest + b);
      ConcatLines(rest, b);
      assert [head] + (ReadLines(rest) + ReadLines(b)) == [head] + ReadLines(rest) + ReadLines(b);
    }
  }

  /** ... or is empty. */
  ghost predicate EndsInNewline(a: string) {
    Split(a, '\n')[|Split(a, '\n')| - 1] == ""
  }

  lemma {:induction false} LineFirst(head: string, rest: string)
    requires '\n' !in head
    ensures ReadLines(head + ['\n'] + rest) == [head] + ReadLines(rest)
    ensures EndsInNewline(head + ['\n'] + rest) <==> EndsInNewline(rest)
  {
    SplitFirst(head, rest, '\n');
    AllButLast(head, Split(rest, '\n'));
  }

  lemma {:induction false} AllButLast(head: string, tail: seq<string>)
    requires tail != []
    ensures ([head] + tail)[..|[head] + tail| - 1] == [head] + tail[..|tail| - 1]
    ensures ([head] + tail)[|[head] + tail| - 1] == tail[|tail| - 1]
  {
  }
}
