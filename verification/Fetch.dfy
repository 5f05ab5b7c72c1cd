/** fetchFile and its cache: what may stand at a downloaded artifact's path, whenever the run that
    put it there was killed (cmd/ossein-kernel). */
module Fetch {
  import opened Text
  import opened Paths
  import opened LlvmPaths
  import opened Files
  import opened Download

  const PARTIAL_SUFFIX := ".part"
  const CACHE_KEY_LEN := 12

  /** strings.EqualFold on hexadecimal digests. */
  function Lower(s: string): string {
    if s == "" then "" else [if 'A' <= s[0] <= 'Z' then s[0] - 'A' + 'a' else s[0]] + Lower(s[1..])
  }

  predicate EqualFold(a: string, b: string) {
    Lower(a) == Lower(b)
  }

  /** verifySHA, over an abstract digest. */
  predicate Matches(digest: string -> string, data: string, want: string) {
    EqualFold(digest(data), want)
  }

  predicate CachedArtifactOk(digest: string -> string, t: Tree, dest: string, want: string) {
    dest in t && t[dest] != "" && (want == "" || Matches(digest, t[dest], want))
  }

  /** A pinned file is cached and fails its pin: the branch that warns and downloads again. */
  predicate FailedChecksum(digest: string -> string, t: Tree, dest: string, want: string) {
    dest in t && t[dest] != "" && want != "" && !Matches(digest, t[dest], want)
  }

  datatype FetchResult = Fetched | DownloadFailed | Mismatch

  /** What the deciding attempt brought in. */
  function Downloaded(net: nat -> Attempt): string {
    Received(net(LastAttempt(net, 1)).body)
  }

  predicate DownloadOk(net: nat -> Attempt) {
    AttemptOk(net(LastAttempt(net, 1)))
  }

  predicate Accepts(digest: string -> string, net: nat -> Attempt, want: string) {
    DownloadOk(net) && (want == "" || Matches(digest, Downloaded(net), want))
  }

  /** Every operation fetchFile would perform if nothing stopped it. */
  function FetchPlan(digest: string -> string, t: Tree, dest: string, want: string, net: nat -> Attempt): seq<Op> {
    if CachedArtifactOk(digest, t, dest, want) then [] else MissPlan(digest, dest, want, net)
  }

  function FetchAnswer(
    digest: string -> string, t: Tree, dest: string, want: string, net: nat -> Attempt): FetchResult {
    if CachedArtifactOk(digest, t, dest, want) then Fetched else MissAnswer(digest, want, net)
  }

  /** fetchFile. */
  method FetchFile(disk: Disk, digest: string -> string, dest: string, want: string, net: nat -> Attempt)
    returns (alive: bool, result: FetchResult)
    modifies disk
    ensures var plan := FetchPlan(digest, old(disk.tree), dest, want, net);
            && (disk.tree, disk.fuel) == Run(old(disk.tree), old(disk.fuel), plan)
            && (alive <==> |plan| <= old(disk.fuel))
    ensures alive ==> result == FetchAnswer(digest, old(disk.tree), dest, want, net)
  {
    if CachedArtifactOk(digest, disk.tree, dest, want) {
      return true, Fetched;
    }
    alive, result := FetchMissing(disk, digest, dest, want, net);
  }

  /** What follows a cache miss. */
  function MissPlan(digest: string -> string, dest: string, want: string, net: nat -> Attempt): seq<Op> {
    DownloadOps(dest + PARTIAL_SUFFIX, net, 1)
    + if Accepts(digest, net, want) then [Rename(dest + PARTIAL_SUFFIX, dest)] else []
  }

  function MissAnswer(digest: string -> string, want: string, net: nat -> Attempt): FetchResult {
    if !DownloadOk(net) then DownloadFailed
    else if want != "" && !Matches(digest, Downloaded(net), want) then Mismatch
    else Fetched
  }

  method FetchMissing(disk: Disk, digest: string -> string, dest: string, want: string, net: nat -> Attempt)
    returns (alive: bool, result: FetchResult)
    modifies disk
    ensures var plan := MissPlan(digest, dest, want, net);
            && (disk.tree, disk.fuel) == Run(old(disk.tree), old(disk.fuel), plan)
            && (alive <==> |plan| <= old(disk.fuel))
    ensures alive ==> result == MissAnswer(digest, want, net)
  {
    var tmp := dest + PARTIAL_SUFFIX;
    ghost var t, fuel := disk.tree, disk.fuel;
    ghost var install := if Accepts(digest, net, want) then [Rename(tmp, dest)] else [];
    RunCat(t, fuel, DownloadOps(tmp, net, 1), install);
    var ok, written, attempts;
    alive, ok, written, attempts := WithRetries(disk, tmp, net);
    if !alive {
      return false, DownloadFailed;
    }
    if !ok {
      return true, DownloadFailed;
    }
    TempIs(t, fuel, tmp, net);
    if want != "" && !Matches(digest, disk.tree[tmp], want) {
      return true, Mismatch;
    }
    alive := disk.Do(Rename(tmp, dest));
    return alive, Fetched;
  }

  lemma {:induction false} TempIs(t: Tree, fuel: nat, tmp: string, net: nat -> Attempt)
    requires |DownloadOps(tmp, net, 1)| <= fuel && DownloadOk(net)
    ensures var t' := Run(t, fuel, DownloadOps(tmp, net, 1)).0; tmp in t' && t'[tmp] == Downloaded(net)
  {
    var ops := DownloadOps(tmp, net, 1);
    RunIsPrefix(t, fuel, ops);
    assert ops[..|ops|] == ops;
    DownloadConserves(t, tmp, net, 1);
  }

  /** Wherever the kill comes, the file at `dest` is the old one or the complete download of this
      run, checked against its pin; nothing but `dest` and its partial file changes. */
  lemma {:induction false} FetchAtomic(
    digest: string -> string, t: Tree, dest: string, want: string, net: nat -> Attempt, fuel: nat)
    ensures var plan := FetchPlan(digest, t, dest, want, net);
            var t' := Run(t, fuel, plan).0;
            && (forall p :: p != dest && p != dest + PARTIAL_SUFFIX ==> SameAt(t, t', p))
            && (!SameAt(t, t', dest) ==>
                  Accepts(digest, net, want) && |plan| <= fuel && dest in t' && t'[dest] == Downloaded(net))
  {
    var tmp, plan := dest + PARTIAL_SUFFIX, FetchPlan(digest, t, dest, want, net);
    var t' := Run(t, fuel, plan).0;
    RunIsPrefix(t, fuel, plan);
    if !CachedArtifactOk(digest, t, dest, want) {
      var ops := DownloadOps(tmp, net, 1);
      DownloadOnlyTemp(tmp, net, 1);
      var n := Min(fuel, |plan|);
      if n <= |ops| {
        assert plan[..n] == ops[..n];
        OnlyTemp(t, ops[..n], tmp);
        SameOutside(t, t', tmp);
      } else {
        assert plan[..n] == ops + [Rename(tmp, dest)];
        ExecCat(t, ops, [Rename(tmp, dest)]);
        DownloadConserves(t, tmp, net, 1);
        ExecOne(Exec(t, ops), Rename(tmp, dest));
      }
    } else {
      assert plan[..0] == [];
    }
  }

  lemma {:induction false} SameOutside(t: Tree, t': Tree, tmp: string)
    requires t' - {tmp} == t - {tmp}
    ensures forall p :: p != tmp ==> SameAt(t, t', p)
  {
    forall p | p != tmp ensures SameAt(t, t', p) {
      assert p in t' <==> p in t' - {tmp};
      assert p in t <==> p in t - {tmp};
      if p in t {
        assert t'[p] == (t' - {tmp})[p] == (t - {tmp})[p];
      }
    }
  }

  /** The bytes at `dest` once fetchFile has returned nil. */
  function Obtained(digest: string -> string, t: Tree, dest: string, want: string, net: nat -> Attempt): string {
    if CachedArtifactOk(digest, t, dest, want) then t[dest] else Downloaded(net)
  }

  /** A nil return leaves those bytes at `dest`, and with a pin it means they have its digest. */
  lemma {:induction false} FetchObtains(
    digest: string -> string, t: Tree, dest: string, want: string, net: nat -> Attempt)
    requires FetchAnswer(digest, t, dest, want, net) == Fetched
    ensures var t', data := Exec(t, FetchPlan(digest, t, dest, want, net)), Obtained(digest, t, dest, want, net);
            && dest in t' && t'[dest] == data
            && (want != "" ==> Matches(digest, data, want))
  {
    var tmp := dest + PARTIAL_SUFFIX;
    if !CachedArtifactOk(digest, t, dest, want) {
      var ops := DownloadOps(tmp, net, 1);
      ExecCat(t, ops, [Rename(tmp, dest)]);
      DownloadConserves(t, tmp, net, 1);
      ExecOne(Exec(t, ops), Rename(tmp, dest));
    }
  }

  /* ----- what a pin is compared with ----- */

  predicate UpperCase(c: char) { 'A' <= c <= 'Z' }

  predicate NoUpper(s: string) {
    forall i :: 0 <= i < |s| ==> !UpperCase(s[i])
  }

  /** Two characters are the same, or the two cases of one letter. */
  predicate SameLetter(x: char, y: char) {
    x == y || (UpperCase(x) && y as int == x as int + 32) || (UpperCase(y) && x as int == y as int + 32)
  }

  lemma {:induction false} LowerIs(s: string)
    ensures |Lower(s)| == |s|
    ensures forall i :: 0 <= i < |s| ==> Lower(s)[i] as int == s[i] as int + if UpperCase(s[i]) then 32 else 0
  {
    if s != "" {
      LowerIs(s[1..]);
      assert forall i :: 1 <= i < |s| ==> Lower(s)[i] == Lower(s[1..])[i - 1];
    }
  }

  /** Digest and pin are compared character by character, whatever the case of their letters. */
  lemma {:induction false} EqualFoldIff(a: string, b: string)
    ensures EqualFold(a, b) <==> |a| == |b| && forall i :: 0 <= i < |a| ==> SameLetter(a[i], b[i])
  {
    LowerIs(a);
    LowerIs(b);
    if |a| == |b| && forall i :: 0 <= i < |a| ==> SameLetter(a[i], b[i]) {
      assert forall i :: 0 <= i < |a| ==> Lower(a)[i] == Lower(b)[i];
      assert Lower(a) == Lower(b);
    }
    if EqualFold(a, b) {
      forall i | 0 <= i < |a| ensures SameLetter(a[i], b[i]) {
        assert Lower(a)[i] == Lower(b)[i];
      }
    }
  }

  lemma {:induction false} PlainlyEqual(a: string, b: string)
    requires NoUpper(a) && NoUpper(b)
    ensures EqualFold(a, b) <==> a == b
  {
    EqualFoldIff(a, b);
    if EqualFold(a, b) {
      assert forall i :: 0 <= i < |a| ==> a[i] == b[i];
    }
  }

  /** A digest as hex.EncodeToString prints it. */
  ghost predicate LowerDigest(digest: string -> string) {
    forall data :: NoUpper(digest(data))
  }

  /** With a pin in lower case, the file a run puts at `dest` has that very digest, wherever it is
      killed, and so has the file it leaves there when it returns nil: bytes with any other are never
      renamed into place. */
  lemma {:induction false} OnlyThePinnedBytes(
    digest: string -> string, t: Tree, dest: string, want: string, net: nat -> Attempt, fuel: nat)
    requires LowerDigest(digest) && NoUpper(want) && want != ""
    ensures var t' := Run(t, fuel, FetchPlan(digest, t, dest, want, net)).0;
            !SameAt(t, t', dest) ==> dest in t' && digest(t'[dest]) == want
    ensures var plan := FetchPlan(digest, t, dest, want, net);
            |plan| <= fuel && FetchAnswer(digest, t, dest, want, net) == Fetched ==>
              var t' := Run(t, fuel, plan).0; dest in t' && digest(t'[dest]) == want
  {
    var plan := FetchPlan(digest, t, dest, want, net);
    FetchAtomic(digest, t, dest, want, net, fuel);
    PlainlyEqual(digest(Downloaded(net)), want);
    PlainlyEqual(digest(Obtained(digest, t, dest, want, net)), want);
    RunIsPrefix(t, fuel, plan);
    if |plan| <= fuel && FetchAnswer(digest, t, dest, want, net) == Fetched {
      assert plan[..|plan|] == plan;
      FetchObtains(digest, t, dest, want, net);
    }
  }

  /** What fetchFile answers, told by the bytes alone: a cached file that is not empty, with the pin's
      digest if there is a pin, is enough and nothing is done; otherwise the download decides, and with a
      pin any other digest is a mismatch. */
  lemma {:induction false} AnswerIs(
    digest: string -> string, t: Tree, dest: string, want: string, net: nat -> Attempt)
    requires LowerDigest(digest) && NoUpper(want)
    ensures var answer := FetchAnswer(digest, t, dest, want, net);
            if dest in t && t[dest] != "" && (want == "" || digest(t[dest]) == want) then
              answer == Fetched && FetchPlan(digest, t, dest, want, net) == []
            else answer == if !DownloadOk(net) then DownloadFailed
                           else if want == "" || digest(Downloaded(net)) == want then Fetched else Mismatch
  {
    PlainlyEqual(digest(Downloaded(net)), want);
    if dest in t {
      PlainlyEqual(digest(t[dest]), want);
    }
  }

  /** A download that is installed leaves no partial file behind. */
  lemma {:induction false} NoPartialLeft(
    digest: string -> string, t: Tree, dest: string, want: string, net: nat -> Attempt, fuel: nat)
    requires !CachedArtifactOk(digest, t, dest, want) && FetchAnswer(digest, t, dest, want, net) == Fetched
    requires |FetchPlan(digest, t, dest, want, net)| <= fuel
    ensures dest + PARTIAL_SUFFIX !in Run(t, fuel, FetchPlan(digest, t, dest, want, net)).0
  {
    var tmp, plan := dest + PARTIAL_SUFFIX, FetchPlan(digest, t, dest, want, net);
    RunIsPrefix(t, fuel, plan);
    assert plan[..|plan|] == plan;
    var ops := DownloadOps(tmp, net, 1);
    ExecCat(t, ops, [Rename(tmp, dest)]);
    DownloadConserves(t, tmp, net, 1);
    ExecOne(Exec(t, ops), Rename(tmp, dest));
  }

  /* ----- cache paths ----- */

  /** cachePath: the digest's first bytes go between the stem and the extensions. */
  function KeyedName(name: string, want: string): string
    requires |want| >= CACHE_KEY_LEN
  {
    var dot := IndexOf(name, '.');
    var ext := if dot < |name| then name[dot + 1..] else "";
    name[..dot] + "-" + want[..CACHE_KEY_LEN] + "." + ext
  }

  /** The key goes in front of the first dot, and of all extensions. */
  lemma {:induction false} KeyedNameIs(stem: string, ext: string, want: string)
    requires |want| >= CACHE_KEY_LEN && '.' !in stem
    ensures KeyedName(stem + "." + ext, want) == stem + "-" + want[..12] + "." + ext
  {
    var name := stem + ['.'] + ext;
    IndexOfAt(stem, '.', ext);
    assert name[..|stem|] == stem && name[|stem| + 1..] == ext;
  }

  function CachePath(base: string, want: string): string {
    if |want| < CACHE_KEY_LEN then base
    else
      var n := LastSlash(base);
      JoinPath(base[..n], KeyedName(base[n..], want))
  }

  /** A pin long enough to key a cached file by, as every hexadecimal digest is. */
  ghost predicate IsPin(want: string) {
    |want| >= CACHE_KEY_LEN && '/' !in want[..CACHE_KEY_LEN]
  }

  /** The keyed path is the base's directory with one more component, the keyed name. */
  lemma {:induction false} CachePathSpelled(base: string, want: string)
    requires IsPin(want)
    ensures var n := LastSlash(base);
            var cs := Components(base[..n]) + [KeyedName(base[n..], want)];
            Resolved(Rooted(base[..n]), cs) && CachePath(base, want) == Spell(Rooted(base[..n]), cs)
  {
    var n := LastSlash(base);
    KeyedIsName(base[n..], want);
    OneMoreName(base[..n], KeyedName(base[n..], want));
  }

  lemma {:induction false} KeyedIsName(name: string, want: string)
    requires IsPin(want) && '/' !in name
    ensures IsName(KeyedName(name, want)) && KeyedName(name, want) != ".."
  {
    var dot := IndexOf(name, '.');
    assert KeyedName(name, want)[dot] == '-';
    assert '-' !in "." && '-' !in "..";
  }

  /** Joining one more name to a directory spells the directory's components and the name. */
  lemma {:induction false} OneMoreName(dir: string, name: string)
    requires IsName(name) && name != ".."
    ensures var cs := Components(dir) + [name];
            Resolved(Rooted(dir), cs) && JoinPath(dir, name) == Spell(Rooted(dir), cs)
  {
    assert '/' !in name;
    SplitNone(name, '/');
    ComponentsResolved(dir);
    if dir == "" {
      SplitNone("", '/');
      assert Components("") == [];
      assert PushAll(false, [], [name]) == [name];
      assert !Rooted(name);
      assert [] + [name] == [name];
    } else {
      ComponentsCat(dir, name);
      assert PushAll(Rooted(dir), Components(dir), [name]) == Components(dir) + [name];
    }
    var cs := Components(dir) + [name];
    forall i, j | 0 <= i < j < |cs| && cs[j] == ".." ensures cs[i] == ".." {
      assert j < |cs| - 1;
    }
  }

  /** Of a bare name it is a bare name. */
  lemma {:induction false} CachePathFlat(base: string, want: string)
    requires IsPin(want) && '/' !in base
    ensures CachePath(base, want) == KeyedName(base, want)
  {
    var name := KeyedName(base, want);
    LastSlashAt("", base);
    assert "" + base == base;
    assert base[..0] == "" && base[0..] == base;
    CachePathSpelled(base, want);
    SplitNone("", '/');
    assert Components("") == [];
    assert [] + [name] == [name];
  }

  lemma {:induction false} KeyedDash(name: string, want: string)
    requires |want| >= CACHE_KEY_LEN
    ensures var dot := IndexOf(name, '.'); |KeyedName(name, want)| > dot && KeyedName(name, want)[dot] == '-'
  {
  }

  lemma {:induction false} KeyedFirst(name: string, want: string)
    requires |want| >= CACHE_KEY_LEN && name != "" && name[0] != '.'
    ensures KeyedName(name, want) != "" && KeyedName(name, want)[0] == name[0]
  {
  }

  /** Pins with different keys never share a file, and no partial file is another pin's file. */
  lemma {:induction false} CachePathsApart(base: string, p: string, q: string)
    requires IsPin(p) && IsPin(q)
    ensures p[..CACHE_KEY_LEN] != q[..CACHE_KEY_LEN] ==> CachePath(base, p) != CachePath(base, q)
    ensures CachePath(base, p) + PARTIAL_SUFFIX != CachePath(base, q)
  {
    var n := LastSlash(base);
    var a, b := KeyedName(base[n..], p), KeyedName(base[n..], q);
    CachePathSpelled(base, p);
    CachePathSpelled(base, q);
    KeyedNamesApart(base[n..], p, q);
    LastNamesApart(Rooted(base[..n]), Components(base[..n]), a, b);
  }

  lemma {:induction false} KeyedNamesApart(name: string, p: string, q: string)
    requires |p| >= CACHE_KEY_LEN && |q| >= CACHE_KEY_LEN
    ensures |KeyedName(name, p)| == |KeyedName(name, q)| > 0
    ensures p[..CACHE_KEY_LEN] != q[..CACHE_KEY_LEN] ==> KeyedName(name, p) != KeyedName(name, q)
  {
    var dot := IndexOf(name, '.');
    assert KeyedName(name, p)[dot + 1..dot + 13] == p[..12];
    assert KeyedName(name, q)[dot + 1..dot + 13] == q[..12];
  }

  lemma {:induction false} LastNamesApart(rooted: bool, d: seq<string>, a: string, b: string)
    requires Resolved(rooted, d + [a]) && Resolved(rooted, d + [b]) && |a| == |b| > 0
    ensures a != b ==> Spell(rooted, d + [a]) != Spell(rooted, d + [b])
    ensures Spell(rooted, d + [a]) + PARTIAL_SUFFIX != Spell(rooted, d + [b])
  {
    RenderLast(rooted, d, a);
    RenderLast(rooted, d, b);
    assert d + [a] != [] && d + [b] != [];
    var head := Render(rooted, d) + (if d == [] then "" else "/");
    assert (head + a)[|head|..] == a && (head + b)[|head|..] == b;
  }

  /* ----- histories of pins ----- */

  /** One call of fetchFile in some run: its pin, the network it met, when it was killed. */
  datatype Fetching = Fetching(want: string, net: nat -> Attempt, fuel: nat)

  function After(digest: string -> string, t: Tree, base: string, f: Fetching): Tree {
    Run(t, f.fuel, FetchPlan(digest, t, CachePath(base, f.want), f.want, f.net)).0
  }

  function AfterAll(digest: string -> string, t: Tree, base: string, fs: seq<Fetching>): Tree {
    if fs == [] then t else After(digest, AfterAll(digest, t, base, fs[..|fs| - 1]), base, fs[|fs| - 1])
  }

  /** Proper pins, and those that differ at all differ in their keys. */
  ghost predicate DistinctKeys(pins: set<string>) {
    && (forall p :: p in pins ==> IsPin(p))
    && forall p, q :: p in pins && q in pins && p != q ==> p[..CACHE_KEY_LEN] != q[..CACHE_KEY_LEN]
  }

  ghost predicate AllVerified(digest: string -> string, t: Tree, base: string, pins: set<string>) {
    forall p :: p in pins && CachePath(base, p) in t ==> Matches(digest, t[CachePath(base, p)], p)
  }

  lemma {:induction false} KeepsVerified(
    digest: string -> string, t: Tree, base: string, pins: set<string>, f: Fetching)
    requires DistinctKeys(pins) && f.want in pins && AllVerified(digest, t, base, pins)
    ensures AllVerified(digest, After(digest, t, base, f), base, pins)
  {
    var dest := CachePath(base, f.want);
    var t' := After(digest, t, base, f);
    FetchAtomic(digest, t, dest, f.want, f.net, f.fuel);
    forall p | p in pins && CachePath(base, p) in t' ensures Matches(digest, t'[CachePath(base, p)], p) {
      if p != f.want {
        CachePathsApart(base, f.want, p);
        assert SameAt(t, t', CachePath(base, p));
      } else if !SameAt(t, t', dest) {
        assert f.want != "";
        assert Accepts(digest, f.net, f.want);
      }
    }
  }

  lemma {:induction false} HistoryVerified(
    digest: string -> string, t: Tree, base: string, pins: set<string>, fs: seq<Fetching>)
    requires DistinctKeys(pins) && AllVerified(digest, t, base, pins)
    requires forall f :: f in fs ==> f.want in pins
    ensures AllVerified(digest, AfterAll(digest, t, base, fs), base, pins)
  {
    if fs != [] {
      assert fs[|fs| - 1] in fs;
      HistoryVerified(digest, t, base, pins, fs[..|fs| - 1]);
      KeepsVerified(digest, AfterAll(digest, t, base, fs[..|fs| - 1]), base, pins, fs[|fs| - 1]);
    }
  }

  /** Over every history of pins whose keys are pairwise distinct, killed anywhere, from an empty
      cache: a pin bump reads as a miss, never as a cached file that failed its checksum. */
  lemma {:induction false} PinBumpIsAMiss(
    digest: string -> string, t: Tree, base: string, pins: set<string>, fs: seq<Fetching>, want: string)
    requires DistinctKeys(pins) && want in pins
    requires forall p :: p in pins ==> CachePath(base, p) !in t
    requires forall f :: f in fs ==> f.want in pins
    ensures !FailedChecksum(digest, AfterAll(digest, t, base, fs), CachePath(base, want), want)
  {
    HistoryVerified(digest, t, base, pins, fs);
  }

  /** The keys are what it rests on: two pins that share theirs share a file, and a cached file of
      the one is a failed checksum for the other. */
  lemma {:induction false} SharedKeyFails(digest: string -> string, base: string, p: string, q: string, data: string)
    requires IsPin(p) && IsPin(q) && p[..CACHE_KEY_LEN] == q[..CACHE_KEY_LEN]
    requires data != "" && Matches(digest, data, p) && !EqualFold(p, q)
    ensures CachePath(base, p) == CachePath(base, q)
    ensures FailedChecksum(digest, map[CachePath(base, p) := data], CachePath(base, q), q)
  {
  }
}
