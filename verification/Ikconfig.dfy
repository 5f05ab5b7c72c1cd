/** internal/ikconfig: what an embedded .config says, and whether it meets the policy and the
    golden snapshot. */
module Ikconfig {
  import opened Wrappers
  import opened Text
  import opened ConfigLines

  datatype State = Y | M | N | Absent

  datatype Want = WantY | WantNotY {
    predicate Met(state: State) {
      if this == WantY then state == Y else state != Y
    }
  }

  datatype Decision = Decision(symbol: string, want: Want)

  datatype Section = Section(title: string, decisions: seq<Decision>)

  datatype Config = Config(title: string, states: map<string, State>, golden: seq<string>) {
    function StateOf(symbol: string): State {
      if symbol in states then states[symbol] else Absent
    }
  }

  const TITLE := "Kernel Configuration"

  /* ----- what one line says ----- */

  predicate Digits(s: string) {
    s != "" && forall i :: 0 <= i < |s| ==> '0' <= s[i] <= '9'
  }

  predicate HexDigits(s: string) {
    s != "" && forall i :: 0 <= i < |s| ==>
      '0' <= s[i] <= '9' || 'a' <= s[i] <= 'f' || 'A' <= s[i] <= 'F'
  }

  /** y, m, a decimal or a hexadecimal number: a value with nothing but letters and digits in it. */
  predicate PlainValue(v: string) {
    v == "y" || v == "m" || Digits(v) || (HasPrefix(v, "0x") && HexDigits(v[2..]))
  }

  predicate Quoted(v: string) {
    |v| >= 2 && v[0] == '"' && v[|v| - 1] == '"' && '\n' !in v
  }

  /** The goldenLine expression: CONFIG_[A-Z0-9_]+= followed by a plain or a quoted value. */
  predicate GoldenLine(line: string) {
    && HasPrefix(line, PREFIX)
    && var i := Equals(line);
       |PREFIX| < i < |line| && IsSymbol(line[|PREFIX|..i])
       && (PlainValue(line[i + 1..]) || Quoted(line[i + 1..]))
  }

  /** The symbol and value of a line that starts with CONFIG_, cut at the first '=' if any. */
  function Assignment(line: string): (string, string)
    requires HasPrefix(line, PREFIX)
  {
    var rest := line[|PREFIX|..];
    var i := IndexOf(rest, '=');
    (rest[..i], if i < |rest| then rest[i + 1..] else "")
  }

  /** The symbol a line gives a state to, and that state. */
  function Verdict(line: string): Option<(string, State)> {
    if HasPrefix(line, HASH_PREFIX) && HasSuffix(line, NOT_SET) then
      Some((TrimSuffix(TrimPrefix(line, HASH_PREFIX), NOT_SET), N))
    else if HasPrefix(line, PREFIX) then
      var (symbol, value) := Assignment(line);
      if value == "y" then Some((symbol, Y)) else if value == "m" then Some((symbol, M)) else None
    else None
  }

  /* ----- what a whole file says ----- */

  /** The one line taken for the title: the first that mentions it; |lines| when none does. */
  function TitleAt(lines: seq<string>): (n: nat)
    ensures n <= |lines|
    ensures n < |lines| ==> Contains(lines[n], TITLE)
    ensures forall k :: 0 <= k < n ==> !Contains(lines[k], TITLE)
  {
    if lines == [] || Contains(lines[0], TITLE) then 0 else 1 + TitleAt(lines[1..])
  }

  function DropAt(lines: seq<string>, n: nat): seq<string> {
    if n < |lines| then lines[..n] + lines[n + 1..] else lines
  }

  /** The lines that are read as configuration: all but the title line. */
  function Body(lines: seq<string>): seq<string> {
    DropAt(lines, TitleAt(lines))
  }

  function Verdicts(lines: seq<string>): (r: seq<Option<(string, State)>>)
    ensures |r| == |lines|
    ensures forall i :: 0 <= i < |lines| ==> r[i] == Verdict(lines[i])
  {
    seq(|lines|, i requires 0 <= i < |lines| => Verdict(lines[i]))
  }

  /** A verdict that gives `symbol` no state; numeric and string lines have no verdict at all. */
  predicate Silent(v: Option<(string, State)>, symbol: string) {
    v.None? || v.value.0 != symbol
  }

  /** The last verdict on `symbol` has the word. */
  function LastOf(vs: seq<Option<(string, State)>>, symbol: string): State {
    if vs == [] then Absent
    else if Silent(vs[|vs| - 1], symbol) then LastOf(vs[..|vs| - 1], symbol)
    else vs[|vs| - 1].value.1
  }

  function LastVerdict(lines: seq<string>, symbol: string): State {
    LastOf(Verdicts(lines), symbol)
  }

  function GoldenOf(lines: seq<string>): seq<string> {
    if lines == [] then []
    else GoldenOf(lines[..|lines| - 1]) + (if GoldenLine(lines[|lines| - 1]) then [lines[|lines| - 1]] else [])
  }

  /** A parsed file, read declaratively. */
  ghost predicate Reads(config: Config, lines: seq<string>) {
    && (config.title == if TitleAt(lines) < |lines| then TrimPrefix(lines[TitleAt(lines)], "# ") else "")
    && (forall symbol :: config.StateOf(symbol) == LastVerdict(Body(lines), symbol))
    && Sorted(config.golden)
    && multiset(config.golden) == multiset(GoldenOf(Body(lines)))
  }

  /** Verdict k is the last word on `symbol`, and says `state`. */
  ghost predicate LastWord(vs: seq<Option<(string, State)>>, symbol: string, state: State, k: nat) {
    && k < |vs| && vs[k] == Some((symbol, state))
    && forall j :: k < j < |vs| ==> Silent(vs[j], symbol)
  }

  lemma {:induction false} LastWordDecides(vs: seq<Option<(string, State)>>, symbol: string, state: State, k: nat)
    requires LastWord(vs, symbol, state, k)
    ensures LastOf(vs, symbol) == state
  {
    if k < |vs| - 1 {
      LastWordDecides(vs[..|vs| - 1], symbol, state, k);
    }
  }

  lemma {:induction false} LastWordFound(vs: seq<Option<(string, State)>>, symbol: string) returns (k: nat)
    ensures || (LastOf(vs, symbol) == Absent && forall j :: 0 <= j < |vs| ==> Silent(vs[j], symbol))
            || LastWord(vs, symbol, LastOf(vs, symbol), k)
  {
    k := 0;
    if vs != [] {
      if Silent(vs[|vs| - 1], symbol) {
        k := LastWordFound(vs[..|vs| - 1], symbol);
      } else {
        k := |vs| - 1;
      }
    }
  }

  lemma {:induction false} VerdictNeverAbsent(line: string)
    ensures Verdict(line).Some? ==> Verdict(line).value.1 != Absent
  {
  }

  /** The state of a symbol, without recursion: it is `state` exactly when some line gives it that
      state and no later line gives it any, and absent exactly when no line gives it one. */
  lemma {:induction false} LastVerdictIff(lines: seq<string>, symbol: string, state: State)
    ensures state != Absent ==>
              (LastVerdict(lines, symbol) == state <==> exists k :: LastWord(Verdicts(lines), symbol, state, k))
    ensures LastVerdict(lines, symbol) == Absent <==>
              forall j :: 0 <= j < |lines| ==> Silent(Verdicts(lines)[j], symbol)
  {
    var vs := Verdicts(lines);
    var w := LastWordFound(vs, symbol);
    if k :| LastWord(vs, symbol, state, k) {
      LastWordDecides(vs, symbol, state, k);
    }
    if LastWord(vs, symbol, LastOf(vs, symbol), w) {
      VerdictNeverAbsent(lines[w]);
      assert !Silent(vs[w], symbol);
    }
  }

  /* ----- byte order ----- */

  predicate Leq(a: string, b: string) {
    a == "" || (b != "" && (a[0] < b[0] || (a[0] == b[0] && Leq(a[1..], b[1..]))))
  }

  lemma {:induction false} LeqTotal(a: string, b: string)
    ensures Leq(a, b) || Leq(b, a)
  {
    if a != "" && b != "" && a[0] == b[0] { LeqTotal(a[1..], b[1..]); }
  }

  lemma {:induction false} LeqTransitive(a: string, b: string, c: string)
    requires Leq(a, b) && Leq(b, c)
    ensures Leq(a, c)
  {
    if a != "" && a[0] == b[0] == c[0] { LeqTransitive(a[1..], b[1..], c[1..]); }
  }

  lemma {:induction false} LeqAntisymmetric(a: string, b: string)
    requires Leq(a, b) && Leq(b, a)
    ensures a == b
  {
    if a != "" {
      LeqAntisymmetric(a[1..], b[1..]);
      assert a == [a[0]] + a[1..] && b == [b[0]] + b[1..];
    }
  }

  /** Byte order: one text is the beginning of the other, or has the smaller byte where they first
      differ. */
  lemma {:induction false} LeqIff(a: string, b: string)
    ensures Leq(a, b) <==> a <= b || exists k :: Differ(a, b, k) && a[k] < b[k]
  {
    if a != "" && b != "" && a[0] == b[0] {
      LeqIff(a[1..], b[1..]);
      assert a == [a[0]] + a[1..] && b == [b[0]] + b[1..];
      if k :| Differ(a[1..], b[1..], k) && a[1..][k] < b[1..][k] {
        assert a[..k + 1] == [a[0]] + a[1..][..k] && b[..k + 1] == [b[0]] + b[1..][..k];
        assert Differ(a, b, k + 1);
      }
      if k :| Differ(a, b, k) && a[k] < b[k] {
        assert k > 0 && a[1..][..k - 1] == a[..k][1..] && b[1..][..k - 1] == b[..k][1..];
        assert Differ(a[1..], b[1..], k - 1);
      }
    } else if a != "" && b != "" && a[0] < b[0] {
      assert Differ(a, b, 0);
    }
  }

  /** Position `k` is the first at which the two differ. */
  ghost predicate Differ(a: string, b: string, k: int) {
    0 <= k < |a| && k < |b| && a[..k] == b[..k] && a[k] != b[k]
  }

  ghost predicate Sorted(lines: seq<string>) {
    forall i, j :: 0 <= i < j < |lines| ==> Leq(lines[i], lines[j])
  }

  function Insert(lines: seq<string>, l: string): seq<string> {
    if lines == [] || Leq(l, lines[0]) then [l] + lines else [lines[0]] + Insert(lines[1..], l)
  }

  function Sort(lines: seq<string>): seq<string> {
    if lines == [] then [] else Insert(Sort(lines[1..]), lines[0])
  }

  lemma {:induction false} InsertBag(lines: seq<string>, l: string)
    ensures multiset(Insert(lines, l)) == multiset(lines) + multiset{l}
  {
    if lines != [] && !Leq(l, lines[0]) {
      InsertBag(lines[1..], l);
      assert lines == [lines[0]] + lines[1..];
    }
  }

  lemma {:induction false} InsertSorted(lines: seq<string>, l: string)
    requires Sorted(lines)
    ensures Sorted(Insert(lines, l))
  {
    if lines == [] {
    } else if Leq(l, lines[0]) {
      var r := [l] + lines;
      forall i, j | 0 <= i < j < |r| ensures Leq(r[i], r[j]) {
        if i == 0 && j > 1 { LeqTransitive(l, lines[0], lines[j - 1]); }
      }
    } else {
      var rest := Insert(lines[1..], l);
      InsertSorted(lines[1..], l);
      InsertBag(lines[1..], l);
      LeqTotal(l, lines[0]);
      var r := [lines[0]] + rest;
      forall j | 0 <= j < |rest| ensures Leq(lines[0], rest[j]) {
        assert rest[j] in multiset(rest);
        if rest[j] != l {
          assert rest[j] in lines[1..];
        }
      }
      forall i, j | 0 <= i < j < |r| ensures Leq(r[i], r[j]) {
        if i > 0 { assert r[i] == rest[i - 1] && r[j] == rest[j - 1]; }
      }
    }
  }

  lemma {:induction false} SortSorts(lines: seq<string>)
    ensures Sorted(Sort(lines)) && multiset(Sort(lines)) == multiset(lines)
  {
    if lines != [] {
      SortSorts(lines[1..]);
      InsertSorted(Sort(lines[1..]), lines[0]);
      InsertBag(Sort(lines[1..]), lines[0]);
      assert lines == [lines[0]] + lines[1..];
    }
  }

  lemma {:induction false} SameHead(a: seq<string>, b: seq<string>)
    requires Sorted(a) && Sorted(b) && multiset(a) == multiset(b) && a != [] && b != []
    ensures Leq(a[0], b[0])
  {
    assert b[0] in multiset(a);
    var j :| 0 <= j < |a| && a[j] == b[0];
    if j == 0 { LeqTotal(a[0], a[0]); }
  }

  lemma {:induction false} TailMultiset(a: seq<string>)
    requires a != []
    ensures multiset(a[1..]) == multiset(a) - multiset{a[0]}
  {
    assert a == [a[0]] + a[1..];
  }

  lemma {:induction false} SortedTail(a: seq<string>)
    requires Sorted(a) && a != []
    ensures Sorted(a[1..])
  {
    forall i, j | 0 <= i < j < |a[1..]| ensures Leq(a[1..][i], a[1..][j]) {
      assert Leq(a[i + 1], a[j + 1]);
    }
  }

  /** Byte order leaves nothing open: two sorted arrangements of the same lines are the same list,
      whichever sort produced them. */
  lemma {:induction false} SortedUnique(a: seq<string>, b: seq<string>)
    requires Sorted(a) && Sorted(b) && multiset(a) == multiset(b)
    ensures a == b
  {
    SameLength(a, b);
    if a != [] {
      SameHead(a, b);
      SameHead(b, a);
      LeqAntisymmetric(a[0], b[0]);
      SameTail(a, b);
      SortedUnique(a[1..], b[1..]);
      HeadAndTail(a, b);
    }
  }

  lemma {:induction false} SameLength(a: seq<string>, b: seq<string>)
    requires multiset(a) == multiset(b)
    ensures |a| == |b|
  {
    assert |multiset(a)| == |a| && |multiset(b)| == |b|;
  }

  lemma {:induction false} SameTail(a: seq<string>, b: seq<string>)
    requires a != [] && b != [] && Sorted(a) && Sorted(b) && multiset(a) == multiset(b) && a[0] == b[0]
    ensures Sorted(a[1..]) && Sorted(b[1..]) && multiset(a[1..]) == multiset(b[1..])
  {
    TailMultiset(a);
    TailMultiset(b);
    SortedTail(a);
    SortedTail(b);
  }

  lemma {:induction false} HeadAndTail(a: seq<string>, b: seq<string>)
    requires a != [] && b != [] && a[0] == b[0] && a[1..] == b[1..]
    ensures a == b
  {
    assert a == [a[0]] + a[1..] && b == [b[0]] + b[1..];
  }

  /* ----- Parse ----- */

  lemma {:induction false} ContainsLength(s: string, t: string)
    ensures Contains(s, t) ==> |t| <= |s|
  {
  }

  lemma {:induction false} TitleAtSnoc(lines: seq<string>, line: string)
    ensures TitleAt(lines + [line])
         == if TitleAt(lines) < |lines| then TitleAt(lines)
            else |lines| + (if Contains(line, TITLE) then 0 else 1)
  {
    var all := lines + [line];
    if lines == [] {
      assert all == [line] && [line][1..] == [];
    } else {
      assert all[1..] == lines[1..] + [line] && all[0] == lines[0];
      TitleAtSnoc(lines[1..], line);
    }
  }

  lemma {:induction false} DropAtSnoc(lines: seq<string>, line: string, n: nat)
    ensures n < |lines| || n > |lines| ==> DropAt(lines + [line], n) == DropAt(lines, n) + [line]
    ensures DropAt(lines + [line], |lines|) == lines
  {
    var all := lines + [line];
    if n < |lines| {
      assert all[..n] + all[n + 1..] == lines[..n] + lines[n + 1..] + [line];
    }
    assert all[..|lines|] + all[|lines| + 1..] == lines;
  }

  /** Reading one more line: the title once found stays, and each other line joins the body. */
  lemma {:induction false} BodySnoc(lines: seq<string>, line: string)
    ensures Body(lines + [line])
         == if TitleAt(lines) == |lines| && Contains(line, TITLE) then Body(lines) else Body(lines) + [line]
  {
    TitleAtSnoc(lines, line);
    DropAtSnoc(lines, line, TitleAt(lines + [line]));
  }

  /** One turn of Parse's loop. */
  method ReadLine(line: string, title: string, states: map<string, State>, golden: seq<string>)
    returns (title': string, states': map<string, State>, golden': seq<string>)
    ensures title == "" && Contains(line, TITLE) ==>
              title' == TrimPrefix(line, "# ") != "" && states' == states && golden' == golden
    ensures !(title == "" && Contains(line, TITLE)) ==>
              && title' == title
              && states' == (if Verdict(line).Some? then states[Verdict(line).value.0 := Verdict(line).value.1]
                           else states)
              && golden' == (if GoldenLine(line) then golden + [line] else golden)
  {
    title', states', golden' := title, states, golden;
    ContainsLength(line, TITLE);
    PrefixChar(line, HASH_PREFIX, 0);
    PrefixChar(line, PREFIX, 0);
    if title == "" && Contains(line, TITLE) {
      title' := TrimPrefix(line, "# ");
    } else if HasPrefix(line, HASH_PREFIX) && HasSuffix(line, NOT_SET) {
      var symbol := TrimSuffix(TrimPrefix(line, HASH_PREFIX), NOT_SET);
      states' := states[symbol := N];
    } else if HasPrefix(line, PREFIX) {
      var (symbol, value) := Assignment(line);
      if value == "y" {
        states' := states[symbol := Y];
      } else if value == "m" {
        states' := states[symbol := M];
      }
      if GoldenLine(line) {
        golden' := golden + [line];
      }
    }
  }

  /** The states collected from the lines read so far. */
  ghost predicate Collected(states: map<string, State>, vs: seq<Option<(string, State)>>) {
    forall symbol :: (if symbol in states then states[symbol] else Absent) == LastOf(vs, symbol)
  }

  lemma {:induction false} CollectOne(
    states: map<string, State>, vs: seq<Option<(string, State)>>, v: Option<(string, State)>)
    requires Collected(states, vs)
    ensures Collected(if v.Some? then states[v.value.0 := v.value.1] else states, vs + [v])
  {
    assert (vs + [v])[..|vs|] == vs;
  }

  /** What the loop knows after the lines of `front`. */
  ghost predicate SoFar(title: string, states: map<string, State>, golden: seq<string>, front: seq<string>) {
    && (title == "" <==> TitleAt(front) == |front|)
    && (TitleAt(front) < |front| ==> title == TrimPrefix(front[TitleAt(front)], "# "))
    && Collected(states, Verdicts(Body(front)))
    && golden == GoldenOf(Body(front))
  }

  lemma {:induction false} GoldenOfSnoc(lines: seq<string>, line: string)
    ensures GoldenOf(lines + [line]) == GoldenOf(lines) + (if GoldenLine(line) then [line] else [])
  {
    assert (lines + [line])[..|lines|] == lines;
  }

  lemma {:induction false} StepTitle(
    title: string, states: map<string, State>, golden: seq<string>, front: seq<string>, line: string)
    requires SoFar(title, states, golden, front) && title == "" && Contains(line, TITLE)
    requires TrimPrefix(line, "# ") != ""
    ensures SoFar(TrimPrefix(line, "# "), states, golden, front + [line])
  {
    TitleAtSnoc(front, line);
    BodySnoc(front, line);
  }

  lemma {:induction false} StepBody(
    title: string, states: map<string, State>, golden: seq<string>, front: seq<string>, line: string)
    requires SoFar(title, states, golden, front) && !(title == "" && Contains(line, TITLE))
    ensures SoFar(title,
                  if Verdict(line).Some? then states[Verdict(line).value.0 := Verdict(line).value.1] else states,
                  if GoldenLine(line) then golden + [line] else golden,
                  front + [line])
  {
    TitleAtSnoc(front, line);
    BodySnoc(front, line);
    CollectOne(states, Verdicts(Body(front)), Verdict(line));
    assert Verdicts(Body(front) + [line]) == Verdicts(Body(front)) + [Verdict(line)];
    GoldenOfSnoc(Body(front), line);
  }

  /** The same turn, as a step of what the loop knows. */
  method Advance(line: string, title: string, states: map<string, State>, golden: seq<string>,
                 ghost front: seq<string>)
    returns (title': string, states': map<string, State>, golden': seq<string>)
    requires SoFar(title, states, golden, front)
    ensures SoFar(title', states', golden', front + [line])
  {
    title', states', golden' := ReadLine(line, title, states, golden);
    if title == "" && Contains(line, TITLE) {
      StepTitle(title, states, golden, front, line);
    } else {
      StepBody(title, states, golden, front, line);
    }
  }

  lemma {:induction false} NothingRead()
    ensures SoFar("", map[], [], [])
  {
    assert Verdicts(Body([])) == [];
  }

  lemma {:induction false} SoFarReads(
    title: string, states: map<string, State>, golden: seq<string>, lines: seq<string>)
    requires SoFar(title, states, golden, lines)
    ensures Reads(Config(title, states, Sort(golden)), lines)
  {
    SortSorts(golden);
  }

  /** Parse: one pass over the lines, then a sort. */
  method Parse(text: string) returns (config: Config)
    ensures Reads(config, Split(text, '\n'))
  {
    var title, states, golden := ParseLines(Split(text, '\n'));
    SoFarReads(title, states, golden, Split(text, '\n'));
    config := Config(title, states, Sort(golden));
  }

  method ParseLines(lines: seq<string>) returns (title: string, states: map<string, State>, golden: seq<string>)
    ensures SoFar(title, states, golden, lines)
  {
    title, states, golden := "", map[], [];
    var i := 0;
    ghost var read: seq<string> := [];
    NothingRead();
    while i < |lines|
      invariant 0 <= i <= |lines| && read == lines[..i]
      invariant SoFar(title, states, golden, read)
    {
      PrefixSnoc(lines, i);
      title, states, golden := Advance(lines[i], title, states, golden, read);
      read := lines[..i + 1];
      i := i + 1;
    }
    WholePrefix(lines);
  }

  /* ----- Verify ----- */

  predicate AllMet(config: Config, policy: seq<Section>) {
    forall s, d | s in policy && d in s.decisions :: d.want.Met(config.StateOf(d.symbol))
  }

  function Without(lines: seq<string>, others: seq<string>): seq<string> {
    if lines == [] then []
    else Without(lines[..|lines| - 1], others)
         + (if lines[|lines| - 1] in others then [] else [lines[|lines| - 1]])
  }

  lemma {:induction false} WithoutEmptyIff(lines: seq<string>, others: seq<string>)
    ensures Without(lines, others) == [] <==> forall l :: l in lines ==> l in others
  {
    if lines != [] {
      WithoutEmptyIff(lines[..|lines| - 1], others);
      assert lines == lines[..|lines| - 1] + [lines[|lines| - 1]];
    }
  }

  /** drift: the lines only in `got`, and the lines only in `golden`, each in its own order. */
  method Drift(golden: seq<string>, got: seq<string>) returns (added: seq<string>, removed: seq<string>)
    ensures added == Without(got, golden)
    ensures removed == Without(golden, got)
  {
    var inGolden: set<string> := {};
    for i := 0 to |golden|
      invariant forall l :: l in inGolden <==> l in golden[..i]
    {
      inGolden := inGolden + {golden[i]};
    }
    var inGot: set<string> := {};
    for i := 0 to |got|
      invariant forall l :: l in inGot <==> l in got[..i]
    {
      inGot := inGot + {got[i]};
    }
    added := [];
    for i := 0 to |got|
      invariant added == Without(got[..i], golden)
    {
      assert got[..i + 1][..i] == got[..i];
      if got[i] !in inGolden {
        added := added + [got[i]];
      }
    }
    removed := [];
    for i := 0 to |golden|
      invariant removed == Without(golden[..i], got)
    {
      assert golden[..i + 1][..i] == golden[..i];
      if golden[i] !in inGot {
        removed := removed + [golden[i]];
      }
    }
    assert got[..|got|] == got && golden[..|golden|] == golden;
  }

  /** The same lines, however often each occurs. */
  ghost predicate SameLines(a: seq<string>, b: seq<string>) {
    forall l :: l in a <==> l in b
  }

  /** Verify's answer: every decision held and, when there is a golden snapshot, its lines are
      exactly the config's. */
  method Verify(config: Config, policy: seq<Section>, golden: Option<seq<string>>) returns (ok: bool)
    ensures ok <==> AllMet(config, policy) && (golden.Some? ==> SameLines(golden.value, config.golden))
  {
    var held := true;
    for i := 0 to |policy|
      invariant held <==> AllMet(config, policy[..i])
    {
      ghost var before := held;
      var section := policy[i];
      assert policy[..i + 1] == policy[..i] + [section];
      for j := 0 to |section.decisions|
        invariant held <==> (before && forall d | d in section.decisions[..j] :: d.want.Met(config.StateOf(d.symbol)))
      {
        var decision := section.decisions[j];
        assert section.decisions[..j + 1] == section.decisions[..j] + [decision];
        var got := config.StateOf(decision.symbol);
        if decision.want.Met(got) {
          continue;
        }
        held := false;
      }
      assert section.decisions[..|section.decisions|] == section.decisions;
    }
    assert policy[..|policy|] == policy;
    match golden {
      case None => return held;
      case Some(lines) =>
        var added, removed := Drift(lines, config.golden);
        WithoutEmptyIff(config.golden, lines);
        WithoutEmptyIff(lines, config.golden);
        if |added| == 0 && |removed| == 0 {
          return held;
        }
        return false;
    }
  }
}
