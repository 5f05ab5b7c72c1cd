/** How a tar entry's name becomes a path inside the root disk (internal/rootfs). */
module DiskPath {
  import opened Text
  import opened Paths

  function TrimLeftSlash(s: string): string {
    if s != "" && s[0] == '/' then TrimLeftSlash(s[1..]) else s
  }

  /** diskPath: clean first, then strip every slash still leading. */
  function ToDisk(raw: string): string {
    var cleaned := TrimLeftSlash(Clean(raw));
    if cleaned == "" then "." else cleaned
  }

  lemma {:induction false} TrimNothing(s: string)
    requires s == "" || s[0] != '/'
    ensures TrimLeftSlash(s) == s && TrimLeftSlash("/" + s) == s
  {
    assert ("/" + s)[1..] == s;
  }

  /** The mapped path is the relative spelling of the components of the raw one. */
  lemma {:induction false} ToDiskSpells(raw: string)
    ensures Resolved(false, Components(raw))
    ensures ToDisk(raw) == Spell(false, Components(raw))
  {
    ComponentsResolved(raw);
    var cs := Components(raw);
    if cs != [] {
      JoinFirst(cs, '/');
      assert cs[0][0] in cs[0];
    }
    TrimNothing(Join(cs, '/'));
    if !Rooted(raw) {
      TrimNothing(Clean(raw));
    }
  }

  /** What go-diskfs accepts, for every name an archive can carry: no leading slash, already
      clean, and unchanged by a second application. */
  lemma {:induction false} ToDiskCanonical(raw: string)
    ensures !HasPrefix(ToDisk(raw), "/")
    ensures Clean(ToDisk(raw)) == ToDisk(raw)
    ensures ToDisk(ToDisk(raw)) == ToDisk(raw)
  {
    ToDiskSpells(raw);
    var cs := Components(raw);
    SpellRooted(false, cs);
    ComponentsOfSpell(false, cs);
    ToDiskSpells(ToDisk(raw));
  }

  /** Lexical containment, exactly: ".." survives the mapping only for a relative name that
      climbs above the archive's root at some point; a rooted name never does. */
  lemma {:induction false} ToDiskContained(raw: string)
    ensures ".." in Split(ToDisk(raw), '/') <==> !Rooted(raw) && Climbs(raw)
  {
    ToDiskSpells(raw);
    DotDotIffClimbs(raw);
    var cs := Components(raw);
    if cs == [] {
      SplitNone(".", '/');
    } else {
      SplitSpell(false, cs);
    }
  }

  /** unpackTar skips exactly the entries that denote the archive's root; "" never arises. */
  lemma {:induction false} SkippedIffRoot(raw: string)
    ensures ToDisk(raw) != ""
    ensures ToDisk(raw) == "." <==> Components(raw) == []
  {
    ToDiskSpells(raw);
    var cs := Components(raw);
    SpellRooted(false, cs);
    if ToDisk(raw) == "." {
      ComponentsOfSpell(false, cs);
      assert Components(".") == [] by { SplitNone(".", '/'); }
    }
  }

  /** A hardlink is written as the absolute symlink "/" + diskPath(name): it denotes what the link
      name denotes from the root, climbing names included. */
  lemma {:induction false} HardlinkTarget(linkname: string)
    ensures Components("/" + ToDisk(linkname)) == Components("/" + linkname)
  {
    ToDiskSpells(linkname);
    var cs := Components(linkname);
    assert [] + cs == cs;
    FromRoot(linkname);
    FromRoot(ToDisk(linkname));
    SplitSlashFree(linkname);
    ResolveRestFirst(true, [], [], Split(linkname, '/'));
    if cs == [] {
      SplitNone(".", '/');
      assert PushAll(true, [], ["."]) == PushAll(true, [], []);
    } else {
      SplitSpell(false, cs);
    }
    if Rooted(linkname) {
      ComponentsResolved(linkname);
      PushAllResolved(true, [], cs);
    }
  }

  lemma {:induction false} FromRoot(p: string)
    ensures Components("/" + p) == PushAll(true, [], Split(p, '/'))
  {
    assert "/" + p == "" + ['/'] + p;
    SplitCat("", p, '/');
    assert ([""] + Split(p, '/'))[1..] == Split(p, '/');
  }

  /** The order matters: stripping a slash before cleaning, as an earlier version did, lets
      "///x" through with a leading slash. */
  lemma {:induction false} StripFirstLeaksSlash()
    ensures Clean(TrimPrefix("///x", "/")) == "/x"
    ensures ToDisk("///x") == "x"
  {
    assert "///x"[1..] == "//x";
    FromRoot("/x");
    FromRoot("//x");
    assert "/" + "/x" == "//x" && "/" + "//x" == "///x";
    assert "/x" == "" + ['/'] + "x" && "//x" == "" + ['/'] + "/x";
    SplitCat("", "x", '/');
    SplitCat("", "/x", '/');
    SplitNone("x", '/');
    assert Split("/x", '/') == ["", "x"] && Split("//x", '/') == ["", "", "x"];
    assert PushAll(true, [], ["", "x"]) == PushAll(true, [], ["x"]) == PushAll(true, ["x"], []) == ["x"];
    assert PushAll(true, [], ["", "", "x"]) == PushAll(true, [], ["", "x"]);
    ToDiskSpells("///x");
  }
}
