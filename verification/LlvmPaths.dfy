/** Where the entries and links of the LLVM tarball may land (cmd/ossein-kernel). */
module LlvmPaths {
  import opened Text
  import opened Paths

  /** filepath.Join of two elements: leading empty ones are dropped, the rest is cleaned. */
  function JoinPath(a: string, b: string): string {
    if a != "" then Clean(a + "/" + b) else if b != "" then Clean(b) else ""
  }

  /** The length of `p` up to and including its last slash. */
  function LastSlash(p: string): (n: nat)
    ensures n <= |p|
    ensures n > 0 ==> p[n - 1] == '/'
    ensures '/' !in p[n..]
  {
    if p == "" then 0
    else if p[|p| - 1] == '/' then |p|
    else LastSlash(p[..|p| - 1])
  }

  /** filepath.Dir. */
  function Dir(p: string): string {
    Clean(p[..LastSlash(p)])
  }

  function Count(s: string, c: char): nat {
    if s == "" then 0 else (if s[0] == c then 1 else 0) + Count(s[1..], c)
  }

  /** What the build has no use for: headers, docs, cmake files, lldb, and the static archives
      directly under lib. */
  predicate PruneLlvmPath(rel: string) {
    || rel == "include" || HasPrefix(rel, "include/")
    || rel == "share" || HasPrefix(rel, "share/")
    || rel == "lib/cmake" || HasPrefix(rel, "lib/cmake/")
    || HasPrefix(rel, "bin/lldb") || HasPrefix(rel, "lib/liblldb")
    || (HasPrefix(rel, "lib/") && HasSuffix(rel, ".a") && Count(rel, '/') == 1)
  }

  lemma {:induction false} CountIs(s: string, c: char)
    ensures Count(s, c) == |Split(s, c)| - 1
  {
    if s != "" { CountIs(s[1..], c); }
  }

  /** Under a directory `d`: it is the first component, and there is more. */
  lemma {:induction false} UnderIff(rel: string, d: string)
    requires '/' !in d
    ensures var cs := Split(rel, '/');
            && (HasPrefix(rel, d + "/") <==> |cs| >= 2 && cs[0] == d)
            && (HasPrefix(rel, d + "/") ==> cs[1..] == Split(rel[|d + "/"|..], '/'))
  {
    SplitAt(rel, '/');
    var i := IndexOf(rel, '/');
    if HasPrefix(rel, d + "/") {
      var rest := rel[|d + "/"|..];
      assert rel == d + ['/'] + rest;
      IndexOfAt(d, '/', rest);
    }
    assert i < |rel| ==> rel[..i + 1] == rel[..i] + "/";
  }

  lemma {:induction false} HeadIs(rel: string, d: string)
    requires '/' !in d
    ensures rel == d || HasPrefix(rel, d + "/") <==> Split(rel, '/')[0] == d
  {
    UnderIff(rel, d);
    SplitAt(rel, '/');
    if rel == d {
      SplitNone(rel, '/');
    }
  }

  lemma {:induction false} BeginsPiece(s: string, p: string)
    requires '/' !in p
    ensures HasPrefix(s, p) <==> HasPrefix(Split(s, '/')[0], p)
  {
    SplitAt(s, '/');
    var i := IndexOf(s, '/');
    if i < |p| && i < |s| {
      PrefixChar(s, p, i);
      assert p[i] in p;
    }
    assert i >= |p| ==> s[..i][..|p|] == s[..|p|];
  }

  /** The first component is `d`, and the second begins with `p`. */
  lemma {:induction false} SecondBegins(rel: string, d: string, p: string)
    requires '/' !in d && '/' !in p
    ensures HasPrefix(rel, d + "/" + p) <==>
              |Split(rel, '/')| >= 2 && Split(rel, '/')[0] == d && HasPrefix(Split(rel, '/')[1], p)
  {
    UnderIff(rel, d);
    PrefixCat(rel, d + "/", p);
    if HasPrefix(rel, d + "/") {
      BeginsPiece(rel[|d + "/"|..], p);
    }
  }

  /** The first two components are `d` and `e`. */
  lemma {:induction false} SecondIs(rel: string, d: string, e: string)
    requires '/' !in d && '/' !in e
    ensures rel == d + "/" + e || HasPrefix(rel, d + "/" + (e + "/")) <==>
              |Split(rel, '/')| >= 2 && Split(rel, '/')[0] == d && Split(rel, '/')[1] == e
  {
    UnderIff(rel, d);
    PrefixCat(rel, d + "/", e);
    PrefixCat(rel, d + "/", e + "/");
    if HasPrefix(rel, d + "/") {
      HeadIs(rel[|d + "/"|..], e);
    }
  }

  /** What is pruned, told by components: everything under include, share and lib/cmake, the lldb tools
      and libraries, and the archives that lie directly in lib. */
  ghost predicate Pruned(cs: seq<string>) {
    || (|cs| >= 1 && (cs[0] == "include" || cs[0] == "share"))
    || (|cs| >= 2 && cs[0] == "lib" && (cs[1] == "cmake" || HasPrefix(cs[1], "liblldb")))
    || (|cs| >= 2 && cs[0] == "bin" && HasPrefix(cs[1], "lldb"))
    || (|cs| == 2 && cs[0] == "lib" && HasSuffix(cs[1], ".a"))
  }

  lemma {:induction false} PruneIff(rel: string)
    ensures PruneLlvmPath(rel) <==> Pruned(Split(rel, '/'))
  {
    InInclude(rel);
    InShare(rel);
    InLibCmake(rel);
    IsLldb(rel);
    LibArchive(rel);
  }

  lemma {:induction false} InInclude(rel: string)
    ensures rel == "include" || HasPrefix(rel, "include/") <==> Split(rel, '/')[0] == "include"
  {
    HeadIs(rel, "include");
    assert "include" + "/" == "include/";
  }

  lemma {:induction false} InShare(rel: string)
    ensures rel == "share" || HasPrefix(rel, "share/") <==> Split(rel, '/')[0] == "share"
  {
    HeadIs(rel, "share");
    assert "share" + "/" == "share/";
  }

  lemma {:induction false} InLibCmake(rel: string)
    ensures rel == "lib/cmake" || HasPrefix(rel, "lib/cmake/") <==>
              |Split(rel, '/')| >= 2 && Split(rel, '/')[0] == "lib" && Split(rel, '/')[1] == "cmake"
  {
    SecondIs(rel, "lib", "cmake");
    assert "lib" + "/" + "cmake" == "lib/cmake" && "lib" + "/" + ("cmake" + "/") == "lib/cmake/";
  }

  lemma {:induction false} IsLldb(rel: string)
    ensures HasPrefix(rel, "bin/lldb") <==>
              |Split(rel, '/')| >= 2 && Split(rel, '/')[0] == "bin" && HasPrefix(Split(rel, '/')[1], "lldb")
    ensures HasPrefix(rel, "lib/liblldb") <==>
              |Split(rel, '/')| >= 2 && Split(rel, '/')[0] == "lib" && HasPrefix(Split(rel, '/')[1], "liblldb")
  {
    SecondBegins(rel, "bin", "lldb");
    SecondBegins(rel, "lib", "liblldb");
    assert "bin" + "/" + "lldb" == "bin/lldb" && "lib" + "/" + "liblldb" == "lib/liblldb";
  }

  lemma {:induction false} LibArchive(rel: string)
    ensures HasPrefix(rel, "lib/") && HasSuffix(rel, ".a") && Count(rel, '/') == 1 <==>
              |Split(rel, '/')| == 2 && Split(rel, '/')[0] == "lib" && HasSuffix(Split(rel, '/')[1], ".a")
  {
    CountIs(rel, '/');
    UnderIff(rel, "lib");
    assert "lib" + "/" == "lib/";
    if HasPrefix(rel, "lib/") {
      var rest := rel[4..];
      SplitAt(rest, '/');
      if |Split(rel, '/')| == 2 {
        assert Split(rest, '/') == [rest];
      }
      EndsAlike(rel, 3);
    }
  }

  lemma {:induction false} EndsAlike(rel: string, i: nat)
    requires i < |rel| && rel[i] == '/'
    ensures HasSuffix(rel, ".a") <==> HasSuffix(rel[i + 1..], ".a")
  {
    var rest := rel[i + 1..];
    if |rest| >= 2 {
      assert rel[|rel| - 2..] == rest[|rest| - 2..];
    } else if |rel| >= 2 {
      assert rel[|rel| - 2..][0] != '.' || rel[|rel| - 2..][1] != 'a' by {
        assert |rest| == 1 ==> rel[|rel| - 2] == '/';
        assert |rest| == 0 ==> rel[|rel| - 1] == '/';
      }
    }
  }

  datatype Placement = Skipped | At(target: string) | Escapes

  /** A tar name without its leading component; "" when nothing is left of it. */
  function Stripped(name: string): string {
    var rel := TrimPrefix(name, "./");
    var slash := IndexOf(rel, '/');
    if slash == |rel| then "" else rel[slash + 1..]
  }

  /** A name but for "./" in front, less its first component. */
  lemma {:induction false} StrippedIs(name: string)
    ensures Stripped(name) == Join(Split(TrimPrefix(name, "./"), '/')[1..], '/')
  {
    var rel := TrimPrefix(name, "./");
    SplitAt(rel, '/');
    var slash := IndexOf(rel, '/');
    if slash < |rel| {
      JoinSplit(rel[slash + 1..], '/');
      assert ([rel[..slash]] + Split(rel[slash + 1..], '/'))[1..] == Split(rel[slash + 1..], '/');
    }
  }

  function LlvmEntryTarget(name: string, destDir: string, root: string): Placement {
    var rel := Stripped(name);
    if rel == "" || PruneLlvmPath(rel) then Skipped
    else
      var target := JoinPath(destDir, rel);
      if HasPrefix(target, root) then At(target) else Escapes
  }

  /** writeLLVMSymlink's test: the link's target, taken from the link's own directory. */
  predicate LinkAccepted(root: string, target: string, linkname: string) {
    var linkTarget := if Rooted(linkname) then linkname else JoinPath(Dir(target), linkname);
    HasPrefix(Clean(linkTarget) + "/", root)
  }

  /** The destination directory as extractLLVM hands it on: clean, and a proper directory. */
  ghost predicate IsDestination(destDir: string) {
    Clean(destDir) == destDir && destDir != "." && destDir != "/"
  }

  function RootOf(destDir: string): string {
    Clean(destDir) + "/"
  }

  lemma {:induction false} DestinationComponents(destDir: string)
    requires IsDestination(destDir)
    ensures Resolved(Rooted(destDir), Components(destDir)) && Components(destDir) != []
    ensures Spell(Rooted(destDir), Components(destDir)) == destDir != ""
  {
    ComponentsResolved(destDir);
    SpellRooted(Rooted(destDir), Components(destDir));
  }

  /** Where a stripped name leads: the walk over it from the destination's own components. */
  ghost function LandsAt(destDir: string, rel: string): seq<string> {
    PushAll(Rooted(destDir), Components(destDir), Split(rel, '/'))
  }

  /** The prefix test on strings is a test on components. A name that is kept lands strictly below
      the destination, spelled clean; the escape error comes exactly for the names that land at
      the destination, above it or beside it. */
  lemma {:induction false} EntryContained(name: string, destDir: string)
    requires IsDestination(destDir)
    ensures var rel, d := Stripped(name), Components(destDir);
            var t := LandsAt(destDir, rel);
            var placed := LlvmEntryTarget(name, destDir, RootOf(destDir));
            if rel == "" || PruneLlvmPath(rel) then placed == Skipped
            else if d < t then placed == At(Spell(Rooted(destDir), t))
                               && Resolved(Rooted(destDir), t) && Components(placed.target) == t
            else placed == Escapes
  {
    var rel, rooted := Stripped(name), Rooted(destDir);
    DestinationComponents(destDir);
    var joined := destDir + "/" + rel;
    ComponentsCat(destDir, rel);
    PrefixIsBelow(joined, rooted, Components(destDir));
    ComponentsResolved(joined);
    CleanIdempotent(joined);
    ComponentsOfSpell(rooted, Components(joined));
    assert JoinPath(destDir, rel) == Clean(joined);
  }

  /** For a name that never climbs, what decides is its depth: at zero it is the destination
      itself and an error, below zero it cannot be, and otherwise it is placed. */
  lemma {:induction false} PlainNamesLandBelow(name: string, destDir: string)
    requires IsDestination(destDir)
    requires Stripped(name) != "" && !PruneLlvmPath(Stripped(name)) && !Climbs(Stripped(name))
    ensures LlvmEntryTarget(name, destDir, RootOf(destDir)).At? <==> Depth(Split(Stripped(name), '/')) > 0
    ensures LlvmEntryTarget(name, destDir, RootOf(destDir)).Escapes? <==> Depth(Split(Stripped(name), '/')) == 0
  {
    var cs, d, rooted := Split(Stripped(name), '/'), Components(destDir), Rooted(destDir);
    EntryContained(name, destDir);
    DestinationComponents(destDir);
    SplitSlashFree(Stripped(name));
    ResolveRestFirst(rooted, d, [], cs);
    PushAllDepth(cs);
    var e := PushAll(false, [], cs);
    PushAllKeepsResolved(false, [], cs);
    PushAllResolved(rooted, d, e);
  }

  /** A name may climb out of the destination and come back in through the destination's own
      name: it is then placed as if it had stayed inside. */
  lemma {:induction false} ClimbingBackIn(destDir: string, rel: string)
    requires IsDestination(destDir)
    requires var d := Components(destDir); d[|d| - 1] != ".."
    ensures var d := Components(destDir);
            LandsAt(destDir, "../" + d[|d| - 1] + "/" + rel) == LandsAt(destDir, rel)
  {
    var d, rooted := Components(destDir), Rooted(destDir);
    DestinationComponents(destDir);
    var last := d[|d| - 1];
    SplitBack(last, rel);
    PushAllCat(rooted, d, ["..", last], Split(rel, '/'));
    OutAndIn(rooted, d);
  }

  lemma {:induction false} SplitBack(name: string, rel: string)
    requires '/' !in name
    ensures Split("../" + name + "/" + rel, '/') == ["..", name] + Split(rel, '/')
  {
    var back := "../" + name;
    assert back == ".." + ['/'] + name && back + "/" + rel == back + ['/'] + rel;
    SplitCat(back, rel, '/');
    SplitFirst("..", name, '/');
    SplitNone(name, '/');
  }

  lemma {:induction false} OutAndIn(rooted: bool, d: seq<string>)
    requires d != [] && d[|d| - 1] != ".." && IsName(d[|d| - 1])
    ensures PushAll(rooted, d, ["..", d[|d| - 1]]) == d
  {
    var front, last := d[..|d| - 1], d[|d| - 1];
    assert front + [last] == d;
    assert ["..", last][1..] == [last] && [last][1..] == [];
    assert PushAll(rooted, front, [last]) == PushAll(rooted, d, []);
  }

  /** "." and "/" are no destinations: nothing at all can be placed below them. */
  lemma {:induction false} DegenerateDestination(name: string, destDir: string)
    requires destDir == "." || destDir == "/"
    ensures !LlvmEntryTarget(name, destDir, RootOf(destDir)).At?
  {
    var joined := destDir + "/" + Stripped(name);
    var rooted := Rooted(destDir);
    var cs := Components(joined);
    assert destDir == Spell(rooted, []);
    ComponentsOfSpell(rooted, []);
    ComponentsResolved(joined);
    if cs == [] {
    } else if rooted {
      JoinFirst(cs, '/');
      assert cs[0][0] in cs[0];
      assert RootOf(destDir) == "//" && Clean(joined)[1] == cs[0][0];
      assert "//"[1] == '/';
    } else {
      SplitSpell(false, cs);
      SplitNone(".", '/');
      if HasPrefix(Clean(joined), "./") {
        PrefixSplits(Clean(joined), ".");
        assert false;
      }
    }
  }

  /* ----- links ----- */

  /** filepath.Dir drops the last component. */
  lemma {:induction false} DirDropsLast(rooted: bool, t: seq<string>)
    requires Resolved(rooted, t) && |t| >= 1
    ensures Dir(Spell(rooted, t)) == Spell(rooted, t[..|t| - 1])
  {
    var p, front, c := Spell(rooted, t), t[..|t| - 1], t[|t| - 1];
    assert t == front + [c];
    RenderLast(rooted, front, c);
    var head := Render(rooted, front) + (if front == [] then "" else "/");
    assert p == head + c;
    LastSlashAt(head, c);
    assert p[..LastSlash(p)] == head;
    TrailingSlash(rooted, front);
  }

  lemma {:induction false} TrailingSlash(rooted: bool, cs: seq<string>)
    requires Resolved(rooted, cs)
    ensures Clean(Render(rooted, cs) + (if cs == [] then "" else "/")) == Spell(rooted, cs)
  {
    ComponentsOfSpell(rooted, cs);
    SpellRooted(rooted, cs);
    SplitNone("", '/');
    if cs == [] {
      assert Components("") == [];
      assert Render(rooted, cs) + "" == Render(rooted, cs);
    } else {
      var p := Spell(rooted, cs);
      assert p + "/" == p + "/" + "";
      ComponentsCat(p, "");
      assert PushAll(rooted, cs, [""]) == PushAll(rooted, cs, []);
    }
  }

  lemma {:induction false} LastSlashAt(head: string, c: string)
    requires '/' !in c && (head == "" || head[|head| - 1] == '/')
    ensures LastSlash(head + c) == |head|
  {
    if c != "" {
      assert (head + c)[..|head + c| - 1] == head + c[..|c| - 1];
      LastSlashAt(head, c[..|c| - 1]);
    } else {
      assert head + c == head;
    }
  }

  /** Where a link at the components `t` leads, read lexically. */
  ghost function LinkLandsAt(rooted: bool, t: seq<string>, linkname: string): seq<string>
    requires t != []
  {
    if Rooted(linkname) then Components(linkname)
    else PushAll(rooted, t[..|t| - 1], Split(linkname, '/'))
  }

  /** A link is accepted exactly when its lexical target is the destination or below it; an
      absolute link only ever fits an absolute destination. */
  lemma {:induction false} LinkContained(t: seq<string>, destDir: string, linkname: string)
    requires IsDestination(destDir)
    requires Resolved(Rooted(destDir), t) && Components(destDir) < t
    ensures LinkAccepted(RootOf(destDir), Spell(Rooted(destDir), t), linkname)
       <==> (Rooted(linkname) ==> Rooted(destDir))
            && Components(destDir) <= LinkLandsAt(Rooted(destDir), t, linkname)
  {
    var rooted, d, target := Rooted(destDir), Components(destDir), Spell(Rooted(destDir), t);
    DestinationComponents(destDir);
    if Rooted(linkname) {
      PrefixIsBelow(linkname, rooted, d);
    } else {
      var front := t[..|t| - 1];
      DirDropsLast(rooted, t);
      assert Resolved(rooted, front);
      var dir := Dir(target);
      SpellRooted(rooted, front);
      ComponentsOfSpell(rooted, front);
      var joined := dir + "/" + linkname;
      ComponentsCat(dir, linkname);
      ComponentsResolved(joined);
      SpellRooted(rooted, Components(joined));
      ComponentsOfSpell(rooted, Components(joined));
      PrefixIsBelow(Clean(joined), rooted, d);
    }
  }
}
