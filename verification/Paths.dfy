/** Lexical path cleaning: the component-stack reading of a slash path, and the in-place buffer
    loop of Go's path.Clean proved against it. */
module Paths {
  import opened Text

  /** A path component that survives cleaning: not empty, not ".", and slash-free. */
  predicate IsName(c: string) {
    c != "" && c != "." && '/' !in c
  }

  /** One component met while walking a path with `stack` the components kept so far. */
  function Push(rooted: bool, stack: seq<string>, c: string): seq<string> {
    if c == "" || c == "." then stack
    else if c != ".." then stack + [c]
    else if stack != [] && stack[|stack| - 1] != ".." then stack[..|stack| - 1]
    else if rooted then stack
    else stack + [c]
  }

  function PushAll(rooted: bool, stack: seq<string>, cs: seq<string>): seq<string>
    decreases |cs|
  {
    if cs == [] then stack else PushAll(rooted, Push(rooted, stack, cs[0]), cs[1..])
  }

  predicate Rooted(p: string) {
    p != "" && p[0] == '/'
  }

  /** The components a path denotes once "", "." and ".." are resolved. */
  function Components(p: string): seq<string> {
    PushAll(Rooted(p), [], Split(p, '/'))
  }

  function Render(rooted: bool, cs: seq<string>): string {
    (if rooted then "/" else "") + Join(cs, '/')
  }

  /** Render, with the empty relative path spelled ".". */
  function Spell(rooted: bool, cs: seq<string>): string {
    if !rooted && cs == [] then "." else Render(rooted, cs)
  }

  /** What path.Clean returns. */
  function Clean(p: string): string {
    Spell(Rooted(p), Components(p))
  }

  /** A resolved component list: names only, and ".." only as a leading run of a relative path. */
  ghost predicate Resolved(rooted: bool, cs: seq<string>) {
    && (forall i :: 0 <= i < |cs| ==> IsName(cs[i]))
    && (rooted ==> ".." !in cs)
    && (forall i, j :: 0 <= i < j < |cs| && cs[j] == ".." ==> cs[i] == "..")
  }

  lemma {:induction false} PushKeepsResolved(rooted: bool, stack: seq<string>, c: string)
    requires Resolved(rooted, stack) && '/' !in c
    ensures Resolved(rooted, Push(rooted, stack, c))
  {
    var r := Push(rooted, stack, c);
    if c == ".." && !(stack != [] && stack[|stack| - 1] != "..") && !rooted {
      forall i | 0 <= i < |stack| ensures stack[i] == ".." {
        if i < |stack| - 1 { assert stack[|stack| - 1] == ".."; }
      }
    }
  }

  lemma {:induction false} PushAllKeepsResolved(rooted: bool, stack: seq<string>, cs: seq<string>)
    requires Resolved(rooted, stack)
    requires forall c :: c in cs ==> '/' !in c
    ensures Resolved(rooted, PushAll(rooted, stack, cs))
    decreases |cs|
  {
    if cs != [] {
      PushKeepsResolved(rooted, stack, cs[0]);
      PushAllKeepsResolved(rooted, Push(rooted, stack, cs[0]), cs[1..]);
    }
  }

  lemma {:induction false} SplitSlashFree(p: string)
    ensures forall c :: c in Split(p, '/') ==> '/' !in c
  {
    forall c | c in Split(p, '/') ensures '/' !in c {
      var k :| 0 <= k < |Split(p, '/')| && Split(p, '/')[k] == c;
      SplitPieces(p, '/', k);
    }
  }

  lemma {:induction false} ComponentsResolved(p: string)
    ensures Resolved(Rooted(p), Components(p))
  {
    SplitSlashFree(p);
    PushAllKeepsResolved(Rooted(p), [], Split(p, '/'));
  }

  lemma {:induction false} PushAllCat(rooted: bool, stack: seq<string>, a: seq<string>, b: seq<string>)
    ensures PushAll(rooted, stack, a + b) == PushAll(rooted, PushAll(rooted, stack, a), b)
    decreases |a|
  {
    if a == [] {
      assert a + b == b;
    } else {
      assert (a + b)[1..] == a[1..] + b;
      PushAllCat(rooted, Push(rooted, stack, a[0]), a[1..], b);
    }
  }

  /** A resolved list pushes onto a resolved stack unchanged, as long as the two agree where the
      leading run of ".." ends. */
  lemma {:induction false} PushAllResolved(rooted: bool, stack: seq<string>, cs: seq<string>)
    requires Resolved(rooted, stack + cs)
    ensures PushAll(rooted, stack, cs) == stack + cs
    decreases |cs|
  {
    if cs == [] {
      assert stack + cs == stack;
    } else {
      var all := stack + cs;
      assert all[|stack|] == cs[0];
      assert IsName(cs[0]);
      if cs[0] == ".." {
        assert ".." in all;
        if stack != [] {
          assert all[|stack| - 1] == stack[|stack| - 1];
          assert stack[|stack| - 1] == "..";
        }
      }
      assert Push(rooted, stack, cs[0]) == stack + [cs[0]];
      assert stack + [cs[0]] + cs[1..] == stack + cs;
      PushAllResolved(rooted, stack + [cs[0]], cs[1..]);
    }
  }

  lemma {:induction false} SplitSpell(rooted: bool, cs: seq<string>)
    requires Resolved(rooted, cs) && cs != []
    ensures Split(Render(rooted, cs), '/') == (if rooted then [""] else []) + cs
  {
    SplitJoin(cs, '/');
    if rooted {
      SplitCat("", Join(cs, '/'), '/');
      assert Render(rooted, cs) == "" + ['/'] + Join(cs, '/');
    } else {
      assert Render(rooted, cs) == Join(cs, '/');
    }
  }

  lemma {:induction false} JoinFirst(cs: seq<string>, c: char)
    requires cs != [] && cs[0] != ""
    ensures Join(cs, c) != "" && Join(cs, c)[0] == cs[0][0]
  {
  }

  lemma {:induction false} SpellRooted(rooted: bool, cs: seq<string>)
    requires Resolved(rooted, cs)
    ensures Rooted(Spell(rooted, cs)) == rooted
    ensures Spell(rooted, cs) != ""
  {
    if cs != [] { JoinFirst(cs, '/'); }
  }

  /** Reading back a spelled component list gives that list. */
  lemma {:induction false} ComponentsOfSpell(rooted: bool, cs: seq<string>)
    requires Resolved(rooted, cs)
    ensures Components(Spell(rooted, cs)) == cs
  {
    SpellRooted(rooted, cs);
    if cs == [] {
      if rooted {
        assert Split("/", '/') == ["", ""] by { SplitCat("", "", '/'); }
        assert PushAll(true, [], ["", ""]) == PushAll(true, [], [""]) == [];
      } else {
        SplitNone(".", '/');
      }
    } else {
      SplitSpell(rooted, cs);
      assert [] + cs == cs;
      PushAllResolved(rooted, [], cs);
      if rooted {
        assert ([""] + cs)[1..] == cs;
      } else {
        assert Split(Render(rooted, cs), '/') == cs;
      }
    }
  }

  /** Cleaning is idempotent: the promise FuzzDiskPath samples, for every string. */
  lemma {:induction false} CleanIdempotent(p: string)
    ensures Clean(Clean(p)) == Clean(p)
  {
    ComponentsResolved(p);
    SpellRooted(Rooted(p), Components(p));
    ComponentsOfSpell(Rooted(p), Components(p));
  }

  /** The clean paths are exactly the spellings of resolved component lists. */
  lemma {:induction false} CleanIff(p: string)
    ensures Clean(p) == p <==> exists cs :: Resolved(Rooted(p), cs) && p == Spell(Rooted(p), cs)
  {
    if Clean(p) == p {
      ComponentsResolved(p);
    }
    if cs :| Resolved(Rooted(p), cs) && p == Spell(Rooted(p), cs) {
      ComponentsOfSpell(Rooted(p), cs);
    }
  }

  /** Two non-empty path fragments joined by a slash walk one after the other. */
  lemma {:induction false} ComponentsCat(a: string, b: string)
    requires a != ""
    ensures Rooted(a + "/" + b) == Rooted(a)
    ensures Components(a + "/" + b) == PushAll(Rooted(a), Components(a), Split(b, '/'))
  {
    assert a + "/" + b == a + ['/'] + b;
    SplitCat(a, b, '/');
    PushAllCat(Rooted(a), [], Split(a, '/'), Split(b, '/'));
  }

  /* ----- climbing above the start ----- */

  /** How deep a walk over `cs` ends, each ".." going one up and each name one down. */
  function Depth(cs: seq<string>): int {
    if cs == [] then 0
    else Depth(cs[..|cs| - 1]) + Weight(cs[|cs| - 1])
  }

  function Weight(c: string): int {
    if c == "" || c == "." then 0 else if c == ".." then -1 else 1
  }

  /** Some prefix of `cs` has more ".." than names: the walk leaves the directory it began in. */
  predicate Dips(cs: seq<string>) {
    cs != [] && (Dips(cs[..|cs| - 1]) || Depth(cs) < 0)
  }

  ghost predicate Climbs(p: string) {
    Dips(Split(p, '/'))
  }

  /** A relative walk from [] keeps a leading ".." exactly when it went below zero on the way,
      and otherwise is as long as it is deep. */
  lemma {:induction false} PushAllDepth(cs: seq<string>)
    ensures DepthTold(PushAll(false, [], cs), cs)
  {
    if cs != [] {
      var front, last := cs[..|cs| - 1], cs[|cs| - 1];
      PushAllDepth(front);
      assert cs == front + [last];
      PushAllCat(false, [], front, [last]);
      PushOne(false, PushAll(false, [], front), last);
      DepthStep(PushAll(false, [], front), front, last);
    }
  }

  /** What a walk over `cs` leaves, told by its depths. */
  ghost predicate DepthTold(r: seq<string>, cs: seq<string>) {
    if Dips(cs) then r != [] && r[0] == ".." else ".." !in r && |r| == Depth(cs)
  }

  lemma {:induction false} PushOne(rooted: bool, stack: seq<string>, c: string)
    ensures PushAll(rooted, stack, [c]) == Push(rooted, stack, c)
  {
    assert PushAll(rooted, stack, [c]) == PushAll(rooted, Push(rooted, stack, c), []);
  }

  lemma {:induction false} DepthStep(r: seq<string>, front: seq<string>, c: string)
    requires DepthTold(r, front)
    ensures DepthTold(Push(false, r, c), front + [c])
  {
    var cs := front + [c];
    assert cs[..|cs| - 1] == front && cs[|cs| - 1] == c;
    assert Depth(cs) == Depth(front) + Weight(c);
    var s := Push(false, r, c);
    assert c != "" && c != "." && c != ".." ==> s == r + [c];
    assert c == ".." && r == [] ==> s == [".."];
    NotNegative(front);
  }

  lemma {:induction false} NotNegative(cs: seq<string>)
    ensures !Dips(cs) ==> Depth(cs) >= 0
  {
  }

  /** A relative path cleans to one with a ".." component iff it climbs above its start; a rooted
      path never does. */
  lemma {:induction false} DotDotIffClimbs(p: string)
    ensures ".." in Components(p) <==> !Rooted(p) && Climbs(p)
  {
    ComponentsResolved(p);
    if !Rooted(p) {
      PushAllDepth(Split(p, '/'));
    }
  }

  /** Resolving the rest of a walk on its own first changes nothing about where it ends. */
  lemma {:induction false} ResolveRestFirst(rooted: bool, start: seq<string>, s: seq<string>, cs: seq<string>)
    requires Resolved(false, s)
    requires forall c :: c in cs ==> '/' !in c
    ensures PushAll(rooted, PushAll(rooted, start, s), cs) == PushAll(rooted, start, PushAll(false, s, cs))
    decreases |cs|
  {
    if cs != [] {
      PushKeepsResolved(false, s, cs[0]);
      ResolveRestFirst(rooted, start, Push(false, s, cs[0]), cs[1..]);
      PushFirst(rooted, start, s, cs[0]);
    }
  }

  lemma {:induction false} PushFirst(rooted: bool, start: seq<string>, s: seq<string>, c: string)
    requires Resolved(false, s)
    ensures Push(rooted, PushAll(rooted, start, s), c) == PushAll(rooted, start, Push(false, s, c))
  {
    PushAllCat(rooted, start, s, [c]);
    PushOne(rooted, PushAll(rooted, start, s), c);
    if c == ".." && s != [] && s[|s| - 1] != ".." {
      var front, last := s[..|s| - 1], s[|s| - 1];
      assert s == front + [last];
      PushAllCat(rooted, start, front, [last]);
      PushOne(rooted, PushAll(rooted, start, front), last);
      assert PushAll(rooted, start, s) == PushAll(rooted, start, front) + [last];
    } else if c != "" && c != "." {
      assert Push(false, s, c) == s + [c];
    }
  }

  /* ----- one path below another ----- */

  /** `Clean(p)` starts with the spelling of `d` and a slash exactly when p is component-wise
      strictly below d; with a slash of its own added, when it is at d or below. */
  lemma {:induction false} PrefixIsBelow(p: string, rooted: bool, d: seq<string>)
    requires Resolved(rooted, d) && d != []
    ensures HasPrefix(Clean(p), Spell(rooted, d) + "/")
       <==> Rooted(p) == rooted && d < Components(p)
    ensures HasPrefix(Clean(p) + "/", Spell(rooted, d) + "/")
       <==> Rooted(p) == rooted && d <= Components(p)
  {
    var t := Components(p);
    ComponentsResolved(p);
    SpellRooted(Rooted(p), t);
    SpellRooted(rooted, d);
    var dir := Spell(rooted, d);
    assert (dir + "/")[0] == dir[0] && (Clean(p) + "/")[0] == Clean(p)[0];
    if Rooted(p) != rooted {
    } else if t == [] {
      NothingBelowEmpty(rooted, d);
    } else {
      PrefixHasBelow(rooted, d, t);
      if d <= t {
        BelowHasPrefix(rooted, d, t);
      }
    }
  }

  lemma {:induction false} NothingBelowEmpty(rooted: bool, d: seq<string>)
    requires Resolved(rooted, d) && d != []
    ensures !HasPrefix(Spell(rooted, []) + "/", Spell(rooted, d) + "/")
    ensures !HasPrefix(Spell(rooted, []), Spell(rooted, d) + "/")
  {
    var dir, dot := Spell(rooted, d), Spell(rooted, []);
    ComponentsOfSpell(rooted, d);
    ComponentsOfSpell(rooted, []);
    SpellRooted(rooted, d);
    assert dir != dot;
    assert (dot + "/")[..1] == dot;
    if |dir| == 1 {
      assert (dir + "/")[..1] == dir;
    }
  }

  lemma {:induction false} SpellCat(rooted: bool, d: seq<string>, rest: seq<string>)
    requires d != [] && rest != []
    ensures Spell(rooted, d + rest) == Spell(rooted, d) + "/" + Join(rest, '/')
  {
    JoinCat(d, rest, '/');
    var root := if rooted then "/" else "";
    assert root + (Join(d, '/') + ['/'] + Join(rest, '/')) == root + Join(d, '/') + ['/'] + Join(rest, '/');
  }

  lemma {:induction false} BelowHasPrefix(rooted: bool, d: seq<string>, t: seq<string>)
    requires d != [] && d <= t
    ensures d < t ==> HasPrefix(Spell(rooted, t), Spell(rooted, d) + "/")
    ensures HasPrefix(Spell(rooted, t) + "/", Spell(rooted, d) + "/")
  {
    if d == t {
      ExtendsPrefix(Spell(rooted, d), "");
      assert Spell(rooted, d) + "/" + "" == Spell(rooted, d) + "/";
    } else {
      var rest := t[|d|..];
      assert t == d + rest;
      SpellCat(rooted, d, rest);
      ExtendsPrefix(Spell(rooted, d), Join(rest, '/'));
    }
  }

  lemma {:induction false} ExtendsPrefix(dir: string, rest: string)
    ensures HasPrefix(dir + "/" + rest, dir + "/")
    ensures HasPrefix(dir + "/" + rest + "/", dir + "/")
  {
  }

  lemma {:induction false} PrefixHasBelow(rooted: bool, d: seq<string>, t: seq<string>)
    requires Resolved(rooted, d) && d != [] && Resolved(rooted, t) && t != []
    ensures HasPrefix(Spell(rooted, t), Spell(rooted, d) + "/") ==> d < t
    ensures HasPrefix(Spell(rooted, t) + "/", Spell(rooted, d) + "/") ==> d <= t
  {
    var dir, path := Spell(rooted, d), Spell(rooted, t);
    var lead := if rooted then [""] else [];
    SplitSpell(rooted, d);
    SplitSpell(rooted, t);
    if HasPrefix(path, dir + "/") {
      PrefixSplits(path, dir);
      CancelPrefix(lead, d, t);
    }
    if HasPrefix(path + "/", dir + "/") {
      PrefixSplits(path + "/", dir);
      SplitCat(path, "", '/');
      assert path + "/" == path + ['/'] + "" && lead + t + [""] == lead + (t + [""]);
      CancelPrefix(lead, d, t + [""]);
      assert d < t + [""];
    }
  }

  lemma {:induction false} CancelPrefix(lead: seq<string>, a: seq<string>, b: seq<string>)
    requires lead + a < lead + b
    ensures a < b
  {
    assert a == (lead + a)[|lead|..] && b == (lead + b)[|lead|..];
    forall i | 0 <= i < |a| ensures a[i] == b[i] {
      assert (lead + a)[|lead| + i] == (lead + b)[|lead| + i];
    }
  }

  lemma {:induction false} PrefixSplits(s: string, dir: string)
    requires HasPrefix(s, dir + "/")
    ensures Split(dir, '/') < Split(s, '/')
  {
    var rest := s[|dir| + 1..];
    assert s == dir + ['/'] + rest;
    SplitCat(dir, rest, '/');
  }

  /* ----- the buffer loop ----- */

  /** The walk still to do from index `r`, started from the components already in the buffer. */
  ghost function Rest(rooted: bool, stack: seq<string>, p: string, r: nat): seq<string>
    requires r <= |p|
  {
    PushAll(rooted, stack, Split(p[r..], '/'))
  }

  /** Reading one component p[r..e], which ends at a slash or at the end, is one Push. */
  lemma {:induction false} ReadComponent(rooted: bool, stack: seq<string>, p: string, r: nat, e: nat)
    requires r <= e <= |p| && '/' !in p[r..e]
    requires e == |p| || p[e] == '/'
    ensures Rest(rooted, stack, p, r) == Rest(rooted, Push(rooted, stack, p[r..e]), p, e)
  {
    var c := p[r..e];
    if e == |p| {
      assert p[r..] == c && p[e..] == "";
      SplitNone(c, '/');
      assert PushAll(rooted, stack, [c]) == PushAll(rooted, Push(rooted, stack, c), [])
          == PushAll(rooted, Push(rooted, stack, c), [""]);
    } else {
      var b := p[e + 1..];
      assert p[r..] == c + ['/'] + b && p[e..] == "" + ['/'] + b;
      SplitNone(c, '/');
      SplitCat(c, b, '/');
      SplitCat("", b, '/');
      assert ([c] + Split(b, '/'))[1..] == Split(b, '/') == ([""] + Split(b, '/'))[1..];
    }
  }

  /** An empty component at a slash is skipped. */
  lemma {:induction false} SkipSlash(rooted: bool, stack: seq<string>, p: string, r: nat)
    requires r < |p| && p[r] == '/'
    ensures Rest(rooted, stack, p, r) == Rest(rooted, stack, p, r + 1)
  {
    assert p[r..] == "" + ['/'] + p[r + 1..];
    SplitCat("", p[r + 1..], '/');
    assert ([""] + Split(p[r + 1..], '/'))[1..] == Split(p[r + 1..], '/');
  }

  /** The length of the leading run of ".." in a resolved list. */
  function Climb(cs: seq<string>): (n: nat)
    ensures n <= |cs|
    ensures n < |cs| ==> cs[n] != ".."
    ensures forall i :: 0 <= i < n ==> cs[i] == ".."
  {
    if cs != [] && cs[0] == ".." then 1 + Climb(cs[1..]) else 0
  }

  lemma {:induction false} ClimbAppend(cs: seq<string>, c: string)
    ensures Climb(cs + [c]) == if c == ".." && Climb(cs) == |cs| then |cs| + 1 else Climb(cs)
  {
    if cs == [] {
      assert cs + [c] == [c] && [c][1..] == [];
    } else {
      assert (cs + [c])[1..] == cs[1..] + [c];
      ClimbAppend(cs[1..], c);
    }
  }

  /** Where the last component of a rendered list starts, and what precedes it. */
  lemma {:induction false} RenderLast(rooted: bool, front: seq<string>, c: string)
    ensures Render(rooted, front + [c])
         == Render(rooted, front) + (if front == [] then "" else "/") + c
  {
    if front == [] {
      assert front + [c] == [c];
    } else {
      JoinCat(front, [c], '/');
    }
  }

  lemma {:induction false} RenderLengthMonotone(rooted: bool, cs: seq<string>, n: nat)
    requires n <= |cs|
    ensures |Render(rooted, cs[..n])| <= |Render(rooted, cs)|
    ensures n < |cs| && cs[n] != "" ==> |Render(rooted, cs[..n])| < |Render(rooted, cs)|
    decreases |cs| - n
  {
    if n < |cs| {
      RenderLengthMonotone(rooted, cs, n + 1);
      assert cs[..n + 1] == cs[..n] + [cs[n]];
      RenderLast(rooted, cs[..n], cs[n]);
    } else {
      assert cs[..n] == cs;
    }
  }

  /** The state of the buffer loop: `w` bytes written spell `stack`, and ".." may not be undone
      below `dotdot`. */
  ghost predicate BufferHolds(rooted: bool, stack: seq<string>, written: string, dotdot: nat) {
    && Resolved(rooted, stack)
    && written == Render(rooted, stack)
    && dotdot == |Render(rooted, stack[..Climb(stack)])|
  }

  /** The loop may back up past the last component exactly when that component is a name. */
  lemma {:induction false} CanBacktrack(rooted: bool, stack: seq<string>, written: string, dotdot: nat)
    requires BufferHolds(rooted, stack, written, dotdot)
    ensures dotdot <= |written|
    ensures |written| > dotdot <==> stack != [] && stack[|stack| - 1] != ".."
    ensures |written| <= dotdot ==> Climb(stack) == |stack|
  {
    var k := Climb(stack);
    RenderLengthMonotone(rooted, stack, k);
    if k == |stack| {
      assert stack[..k] == stack;
    } else if k < |stack| - 1 {
      assert stack[k] != "..";
    }
  }

  /** Dropping the last name leaves a buffer that again holds, and says where it ends. */
  lemma {:induction false} DropLast(rooted: bool, stack: seq<string>, written: string, dotdot: nat)
    requires BufferHolds(rooted, stack, written, dotdot)
    requires stack != [] && stack[|stack| - 1] != ".."
    ensures var front, c := stack[..|stack| - 1], stack[|stack| - 1];
            var cut := |Render(rooted, front)|;
            && dotdot <= cut < |written| && |c| <= |written|
            && BufferHolds(rooted, front, written[..cut], dotdot)
            && (cut > dotdot ==> written[cut] == '/')
            && (forall i :: cut < i < |written| ==> written[i] != '/')
  {
    var front, c := stack[..|stack| - 1], stack[|stack| - 1];
    assert stack == front + [c];
    RenderLast(rooted, front, c);
    LastSlashFree(Render(rooted, front), if front == [] then "" else "/", c);
    DropHolds(rooted, front, c, dotdot);
  }

  lemma {:induction false} DropHolds(rooted: bool, front: seq<string>, c: string, dotdot: nat)
    requires c != ".." && BufferHolds(rooted, front + [c], Render(rooted, front + [c]), dotdot)
    ensures BufferHolds(rooted, front, Render(rooted, front), dotdot) && IsName(c)
    ensures dotdot <= |Render(rooted, front)| && (front == [] ==> dotdot == |Render(rooted, front)|)
  {
    var all := front + [c];
    SameClimb(front, c);
    RenderLengthMonotone(rooted, front, Climb(front));
    assert all[|front|] == c && forall i :: 0 <= i < |front| ==> all[i] == front[i];
    if front == [] {
      assert front[..Climb(front)] == front;
    }
  }

  lemma {:induction false} SameClimb(front: seq<string>, c: string)
    requires c != ".."
    ensures var all := front + [c];
            Climb(all) == Climb(front) && all[..Climb(all)] == front[..Climb(front)]
  {
    ClimbAppend(front, c);
  }

  lemma {:induction false} LastSlashFree(head: string, slash: string, c: string)
    requires IsName(c) && (slash == "" || slash == "/")
    ensures var s := head + slash + c;
            && s[..|head|] == head && |s| > |head|
            && (slash == "/" ==> s[|head|] == '/')
            && (forall i :: |head| + |slash| <= i < |s| ==> s[i] != '/')
            && (forall i :: |head| < i < |s| ==> s[i] != '/')
  {
    var s := head + slash + c;
    forall i | |head| + |slash| <= i < |s| ensures s[i] != '/' {
      assert s[i] == c[i - (|head| + |slash|)];
    }
  }

  lemma {:induction false} AppendHolds(rooted: bool, stack: seq<string>, written: string, dotdot: nat, c: string)
    requires BufferHolds(rooted, stack, written, dotdot)
    requires IsName(c) && (c == ".." ==> !rooted && Climb(stack) == |stack|)
    ensures var written' := written + (if stack == [] then "" else "/") + c;
            BufferHolds(rooted, stack + [c], written', if c == ".." then |written'| else dotdot)
  {
    RenderLast(rooted, stack, c);
    ClimbAppend(stack, c);
    var all := stack + [c];
    if c == ".." {
      assert all[..|all|] == all;
    } else {
      assert all[..Climb(stack)] == stack[..Climb(stack)];
    }
    forall i, j | 0 <= i < j < |all| && all[j] == ".." ensures all[i] == ".." {
      if j == |stack| { assert i < Climb(stack); }
    }
  }

  lemma {:induction false} EmptyIff(rooted: bool, stack: seq<string>, written: string)
    requires Resolved(rooted, stack) && written == Render(rooted, stack)
    ensures |written| == (if rooted then 1 else 0) <==> stack == []
    ensures |written| >= (if rooted then 1 else 0)
  {
    if stack != [] { JoinFirst(stack, '/'); }
  }

  /** The ".." case that can go up: back `w` up to where the last component began. */
  method BackUp(out: array<char>, from: nat, dotdot: nat, ghost stack: seq<string>, ghost rooted: bool)
    returns (w: nat)
    requires dotdot < from <= out.Length
    requires BufferHolds(rooted, stack, out[..from], dotdot)
    requires stack != [] && stack[|stack| - 1] != ".."
    ensures dotdot <= w < from
    ensures BufferHolds(rooted, stack[..|stack| - 1], out[..w], dotdot)
  {
    ghost var cut := |Render(rooted, stack[..|stack| - 1])|;
    DropLast(rooted, stack, out[..from], dotdot);
    assert out[..from][..cut] == out[..cut];
    w := from - 1;
    while w > dotdot && out[w] != '/'
      invariant cut <= w < from
      decreases w
    {
      w := w - 1;
    }
    assert out[..from][w] == out[w];
  }

  /** The ".." case that cannot go up in a relative path: ".." itself is written. */
  method WriteDotDot(out: array<char>, from: nat, dotdot: nat, ghost stack: seq<string>)
    returns (w: nat)
    requires from + 3 <= out.Length || (from == 0 && 2 <= out.Length)
    requires BufferHolds(false, stack, out[..from], dotdot) && Climb(stack) == |stack|
    modifies out
    ensures from < w <= from + 3 && w <= out.Length && (from == 0 ==> w == 2)
    ensures BufferHolds(false, stack + [".."], out[..w], w)
  {
    AppendHolds(false, stack, out[..from], dotdot, "..");
    EmptyIff(false, stack, out[..from]);
    ghost var before := out[..from];
    w := from;
    if w > 0 {
      out[w] := '/';
      w := w + 1;
    }
    out[w] := '.';
    out[w + 1] := '.';
    w := w + 2;
    assert out[..w] == before + (if stack == [] then "" else "/") + "..";
  }

  /** The default case: a slash if the buffer already ends in a component, then path[start..end]
      up to the next slash. */
  method WriteName(path: string, out: array<char>, start: nat, from: nat, dotdot: nat,
                   ghost stack: seq<string>, rooted: bool)
    returns (r: nat, w: nat)
    requires start < |path| == out.Length && from <= start && path[start] != '/'
    requires stack != [] ==> from < start
    requires BufferHolds(rooted, stack, out[..from], dotdot)
    modifies out
    requires !(path[start] == '.' && (start + 1 == |path| || path[start + 1] == '/'))
    requires !(path[start] == '.' && path[start + 1] == '.' && (start + 2 == |path| || path[start + 2] == '/'))
    ensures start < r <= |path| && w <= r && '/' !in path[start..r]
    ensures r == |path| || path[r] == '/'
    ensures BufferHolds(rooted, Push(rooted, stack, path[start..r]), out[..w], dotdot)
  {
    EmptyIff(rooted, stack, out[..from]);
    ghost var before := out[..from];
    w := from;
    if (rooted && w != 1) || (!rooted && w != 0) {
      out[w] := '/';
      w := w + 1;
    }
    assert out[..w] == before + (if stack == [] then "" else "/");
    r, w := CopyName(path, out, start, w);
    OrdinaryName(path, start, r);
    AppendHolds(rooted, stack, before, dotdot, path[start..r]);
  }

  /** Up to the next slash, byte by byte. */
  method CopyName(path: string, out: array<char>, start: nat, from: nat) returns (r: nat, w: nat)
    requires start < |path| == out.Length && from <= start && path[start] != '/'
    modifies out
    ensures start < r <= |path| && w <= r && '/' !in path[start..r]
    ensures r == |path| || path[r] == '/'
    ensures w <= out.Length && out[..w] == old(out[..from]) + path[start..r]
  {
    r, w := start, from;
    ghost var head := out[..from];
    while r < |path| && path[r] != '/'
      invariant start <= r <= |path| && w <= r
      invariant '/' !in path[start..r]
      invariant out[..w] == head + path[start..r]
    {
      assert path[start..r + 1] == path[start..r] + [path[r]];
      out[w] := path[r];
      w := w + 1;
      r := r + 1;
    }
  }

  lemma {:induction false} OrdinaryName(path: string, start: nat, end: nat)
    requires start < end <= |path| && '/' !in path[start..end]
    requires !(path[start] == '.' && (start + 1 == |path| || path[start + 1] == '/'))
    requires !(path[start] == '.' && path[start + 1] == '.' && (start + 2 == |path| || path[start + 2] == '/'))
    requires end == |path| || path[end] == '/'
    ensures IsName(path[start..end]) && path[start..end] != ".."
  {
    var c := path[start..end];
    assert c[0] == path[start];
    if |c| == 2 { assert c[1] == path[start + 1]; }
  }

  /** The ".." case: undo the last name, or keep ".." when there is nothing to undo and the path
      is relative. */
  method ReadDotDot(out: array<char>, from: nat, dotdot: nat, ghost stack: seq<string>, rooted: bool)
    returns (w: nat, stop: nat)
    requires from <= out.Length
    requires from + 3 <= out.Length || (from == 0 && 2 <= out.Length) || rooted || from > dotdot
    requires BufferHolds(rooted, stack, out[..from], dotdot)
    modifies out
    ensures w <= out.Length && w <= from + 3 && (from == 0 ==> w <= 2) && (rooted ==> w <= from)
    ensures BufferHolds(rooted, Push(rooted, stack, ".."), out[..w], stop)
  {
    CanBacktrack(rooted, stack, out[..from], dotdot);
    EmptyIff(rooted, stack, out[..from]);
    w, stop := from, dotdot;
    if w > dotdot {
      w := BackUp(out, w, dotdot, stack, rooted);
    } else if !rooted {
      w := WriteDotDot(out, w, dotdot, stack);
      stop := w;
    }
  }

  /** The loop's state between components: the buffer holds what the path read so far resolves to,
      and writing has fallen behind reading whenever a slash will have to be written. */
  ghost predicate LoopHolds(path: string, rooted: bool, stack: seq<string>, written: string, dotdot: nat, r: nat) {
    && r <= |path| && |written| <= r
    && BufferHolds(rooted, stack, written, dotdot)
    && Rest(rooted, stack, path, r) == Components(path)
    && (r < |path| && path[r] != '/' && stack != [] ==> |written| < r)
  }

  /** One turn of path.Clean's loop: `r` reads the path, `w` writes the buffer, `dotdot` is where
      ".." stops. */
  method ReadOne(path: string, out: array<char>, from: nat, written: nat, stop: nat,
                 ghost stack: seq<string>, rooted: bool)
    returns (r: nat, w: nat, dotdot: nat, ghost stack': seq<string>)
    requires from < |path| == out.Length && written <= out.Length
    requires LoopHolds(path, rooted, stack, out[..written], stop, from)
    modifies out
    ensures from < r <= |path| && w <= out.Length
    ensures LoopHolds(path, rooted, stack', out[..w], dotdot, r)
  {
    var n := |path|;
    r, w, dotdot, stack' := from, written, stop, stack;
    if path[r] == '/' {
      PassSlash(path, rooted, stack, out[..w], stop, from);
      r := r + 1;
    } else if path[r] == '.' && (r + 1 == n || path[r + 1] == '/') {
      PassDot(path, rooted, stack, out[..w], stop, from);
      r := r + 1;
    } else if path[r] == '.' && path[r + 1] == '.' && (r + 2 == n || path[r + 2] == '/') {
      w, dotdot := ReadUp(path, out, from, written, stop, stack, rooted);
      r, stack' := r + 2, Push(rooted, stack, "..");
    } else {
      r, w := ReadName(path, out, from, written, stop, stack, rooted);
      stack' := Push(rooted, stack, path[from..r]);
    }
  }

  lemma {:induction false} PassSlash(
    path: string, rooted: bool, stack: seq<string>, written: string, dotdot: nat, r: nat)
    requires LoopHolds(path, rooted, stack, written, dotdot, r) && r < |path| && path[r] == '/'
    ensures LoopHolds(path, rooted, stack, written, dotdot, r + 1)
  {
    SkipSlash(rooted, stack, path, r);
  }

  method ReadName(path: string, out: array<char>, from: nat, written: nat, stop: nat,
                  ghost stack: seq<string>, rooted: bool)
    returns (r: nat, w: nat)
    requires from < |path| == out.Length && written <= out.Length && path[from] != '/'
    requires LoopHolds(path, rooted, stack, out[..written], stop, from)
    requires !(path[from] == '.' && (from + 1 == |path| || path[from + 1] == '/'))
    requires !(path[from] == '.' && path[from + 1] == '.' && (from + 2 == |path| || path[from + 2] == '/'))
    modifies out
    ensures from < r <= |path| && w <= out.Length
    ensures LoopHolds(path, rooted, Push(rooted, stack, path[from..r]), out[..w], stop, r)
  {
    r, w := WriteName(path, out, from, written, stop, stack, rooted);
    PassName(path, rooted, stack, Push(rooted, stack, path[from..r]), out[..w], stop, from, r);
  }

  /** There is room for another "..", or no need of it. */
  lemma {:induction false} UpFits(path: string, rooted: bool, stack: seq<string>, written: string, stop: nat, r: nat)
    requires LoopHolds(path, rooted, stack, written, stop, r)
    requires r + 1 < |path| && path[r] == '.' && path[r + 1] == '.'
    ensures Rest(rooted, stack, path, r) == Components(path)
    ensures |written| + 3 <= |path| || (|written| == 0 && 2 <= |path|) || rooted || |written| > stop
    ensures rooted || |written| + 3 <= r + 2 || (|written| == 0 && 2 <= r + 2) || |written| > stop
  {
    EmptyIff(rooted, stack, written);
  }

  method ReadUp(path: string, out: array<char>, from: nat, written: nat, stop: nat,
                ghost stack: seq<string>, rooted: bool)
    returns (w: nat, dotdot: nat)
    requires from + 1 < |path| == out.Length && written <= out.Length
    requires LoopHolds(path, rooted, stack, out[..written], stop, from)
    requires path[from] == '.' && path[from + 1] == '.' && (from + 2 == |path| || path[from + 2] == '/')
    modifies out
    ensures w <= out.Length
    ensures LoopHolds(path, rooted, Push(rooted, stack, ".."), out[..w], dotdot, from + 2)
  {
    UpFits(path, rooted, stack, out[..written], stop, from);
    w, dotdot := ReadDotDot(out, written, stop, stack, rooted);
    PassUp(path, rooted, stack, Push(rooted, stack, ".."), out[..w], dotdot, from);
  }

  lemma {:induction false} PassDot(path: string, rooted: bool, stack: seq<string>, written: string, dotdot: nat, r: nat)
    requires LoopHolds(path, rooted, stack, written, dotdot, r)
    requires r < |path| && path[r] == '.' && (r + 1 == |path| || path[r + 1] == '/')
    ensures LoopHolds(path, rooted, stack, written, dotdot, r + 1)
  {
    assert path[r..r + 1] == ".";
    ReadComponent(rooted, stack, path, r, r + 1);
  }

  lemma {:induction false} PassUp(
    path: string, rooted: bool, stack: seq<string>, stack': seq<string>, written: string, dotdot: nat, from: nat)
    requires from + 1 < |path| && Rest(rooted, stack, path, from) == Components(path)
    requires path[from] == '.' && path[from + 1] == '.' && (from + 2 == |path| || path[from + 2] == '/')
    requires stack' == Push(rooted, stack, "..")
    requires |written| <= from + 2 && BufferHolds(rooted, stack', written, dotdot)
    ensures LoopHolds(path, rooted, stack', written, dotdot, from + 2)
  {
    assert path[from..from + 2] == "..";
    PassName(path, rooted, stack, stack', written, dotdot, from, from + 2);
  }

  lemma {:induction false} PassName(
    path: string, rooted: bool, stack: seq<string>, stack': seq<string>, written: string, dotdot: nat,
    from: nat, r: nat)
    requires from <= r <= |path| && Rest(rooted, stack, path, from) == Components(path)
    requires '/' !in path[from..r] && (r == |path| || path[r] == '/')
    requires stack' == Push(rooted, stack, path[from..r])
    requires |written| <= r && BufferHolds(rooted, stack', written, dotdot)
    ensures LoopHolds(path, rooted, stack', written, dotdot, r)
  {
    ReadComponent(rooted, stack, path, from, r);
  }

  method CleanPath(path: string) returns (cleaned: string)
    ensures cleaned == Clean(path)
  {
    if path == "" {
      assert Components("") == [] by { SplitNone("", '/'); }
      return ".";
    }
    var rooted := path[0] == '/';
    var out := new char[|path|];
    var r: nat, w: nat, dotdot: nat := 0, 0, 0;
    ghost var stack: seq<string> := [];
    assert path[0..] == path;
    if rooted {
      out[0] := '/';
      r, w, dotdot := 1, 1, 1;
      SkipSlash(true, [], path, 0);
    }
    assert out[..w] == Render(rooted, []);
    while r < |path|
      invariant w <= out.Length
      invariant LoopHolds(path, rooted, stack, out[..w], dotdot, r)
      decreases |path| - r
    {
      r, w, dotdot, stack := ReadOne(path, out, r, w, dotdot, stack, rooted);
    }
    Finished(rooted, stack, path, out[..w]);
    if w == 0 {
      return ".";
    }
    return out[..w];
  }

  /** Nothing left to read: the buffer spells the components. */
  lemma {:induction false} Finished(rooted: bool, stack: seq<string>, p: string, written: string)
    requires Resolved(rooted, stack) && written == Render(rooted, stack)
    ensures Rest(rooted, stack, p, |p|) == stack
    ensures Spell(rooted, stack) == if written == "" then "." else written
  {
    assert p[|p|..] == "";
    assert PushAll(rooted, stack, [""]) == PushAll(rooted, stack, []);
    EmptyIff(rooted, stack, written);
  }
}
