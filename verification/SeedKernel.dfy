/** The bootstrap kernel: the last promoted one, or a seed taken from a downloaded tarball and kept
    (cmd/ossein-kernel). */
module SeedKernel {
  import opened Wrappers
  import opened Text
  import opened LlvmPaths
  import opened Files
  import opened Download
  import opened Fetch
  import opened Archives

  const SEED := "bootstrap-kernel-arm64"
  const PARTIAL := "bootstrap-kernel-arm64.part"
  const TARBALL := "seed-kernel.tar.zst"
  const MIN_KERNEL_BYTES := 0x10_0000

  /** path.Base, but for the names without an element, which no prefix test here accepts either way. */
  function Base(name: string): string {
    if name != "" && name[|name| - 1] == '/' then Base(name[..|name| - 1]) else name[LastSlash(name)..]
  }

  /** The last component, trailing slashes or not. */
  lemma {:induction false} BaseIs(dir: string, name: string)
    requires '/' !in name && name != ""
    ensures Base(name) == name && Base(dir + "/" + name) == name
    ensures Base(dir + "/" + name + "/") == Base(dir + "/" + name)
  {
    var p := dir + "/" + name;
    assert p[|p| - 1] == name[|name| - 1] && name[|name| - 1] in name;
    LastSlashAt(dir + "/", name);
    assert (dir + "/") + name == p && p[|dir| + 1..] == name;
    LastSlashAt("", name);
    assert "" + name == name && name[0..] == name;
    assert (p + "/")[..|p|] == p;
  }

  predicate IsVmlinux(e: Entry) {
    e.Regular? && HasPrefix(Base(e.name), "vmlinux")
  }

  /** Position of the first vmlinux, or |es|. */
  function SeedAt(es: seq<Entry>): (k: nat)
    ensures k <= |es|
    ensures k < |es| ==> IsVmlinux(es[k])
    ensures forall i :: 0 <= i < k ==> !IsVmlinux(es[i])
  {
    if es == [] || IsVmlinux(es[0]) then 0 else 1 + SeedAt(es[1..])
  }

  /** The kernel a tarball carries: its first vmlinux, if it can be read to its end. */
  function SeedOf(a: Archive): Option<string> {
    var k := SeedAt(a.entries);
    if k < |a.entries| && (a.readable || k + 1 < |a.entries|) then Some(a.entries[k].data) else None
  }

  /** The seed is the data of the first regular entry whose last component begins with vmlinux, if that
      entry was not the one at which reading failed. */
  ghost predicate SeedEntry(a: Archive, k: int, kernel: string) {
    && 0 <= k < |a.entries|
    && a.entries[k].Regular? && HasPrefix(Base(a.entries[k].name), "vmlinux") && a.entries[k].data == kernel
    && (a.readable || k < |a.entries| - 1)
    && forall i :: 0 <= i < k ==> !(a.entries[i].Regular? && HasPrefix(Base(a.entries[i].name), "vmlinux"))
  }

  lemma {:induction false} SeedOfIff(a: Archive, kernel: string)
    ensures SeedOf(a) == Some(kernel) <==> exists k :: SeedEntry(a, k, kernel)
  {
    var at := SeedAt(a.entries);
    assert forall i :: 0 <= i < at ==> !IsVmlinux(a.entries[i]);
    if SeedOf(a) == Some(kernel) {
      assert IsVmlinux(a.entries[at]) && SeedEntry(a, at, kernel);
    }
    if k :| SeedEntry(a, k, kernel) {
      assert IsVmlinux(a.entries[k]);
      assert k == at;
    }
  }

  function SeedOps(a: Archive): seq<Op> {
    var k := SeedAt(a.entries);
    if k == |a.entries| then []
    else
      [Create(PARTIAL)] + Fill(PARTIAL, a.entries[k].data)
      + (if SeedOf(a).Some? then [Rename(PARTIAL, SEED)] else [])
  }

  datatype SeedRun = SeedRun(want: string, net: nat -> Attempt, fuel: nat)

  predicate Cached(t: Tree) {
    SEED in t && t[SEED] != ""
  }

  function Dest(want: string): string {
    CachePath(TARBALL, want)
  }

  function FetchOps(tools: Tools, t: Tree, r: SeedRun): seq<Op> {
    FetchPlan(tools.digest, t, Dest(r.want), r.want, r.net)
  }

  predicate FetchOk(tools: Tools, t: Tree, r: SeedRun) {
    FetchAnswer(tools.digest, t, Dest(r.want), r.want, r.net) == Fetched
  }

  function Contents(tools: Tools, t: Tree, r: SeedRun): Archive {
    tools.decode(Obtained(tools.digest, t, Dest(r.want), r.want, r.net))
  }

  function SeedPlan(tools: Tools, t: Tree, r: SeedRun): seq<Op> {
    if Cached(t) then []
    else FetchOps(tools, t, r) + (if FetchOk(tools, t, r) then SeedOps(Contents(tools, t, r)) else [])
  }

  /** A run that is not killed ends up with a seed. */
  predicate SeedReady(tools: Tools, t: Tree, r: SeedRun) {
    Cached(t) || (FetchOk(tools, t, r) && SeedOf(Contents(tools, t, r)).Some?)
  }

  /** extractSeedKernel and writeSeedKernel. */
  method ExtractSeed(disk: Disk, a: Archive) returns (alive: bool, ok: bool)
    modifies disk
    ensures (disk.tree, disk.fuel) == Run(old(disk.tree), old(disk.fuel), SeedOps(a))
    ensures alive <==> |SeedOps(a)| <= old(disk.fuel)
    ensures alive ==> ok == SeedOf(a).Some?
  {
    var i := 0;
    while i < |a.entries|
      invariant i <= |a.entries|
      invariant forall j :: 0 <= j < i ==> !IsVmlinux(a.entries[j])
    {
      var e := a.entries[i];
      if e.Regular? && HasPrefix(Base(e.name), "vmlinux") {
        ghost var k := SeedAt(a.entries);
        assert k == i;
        ghost var last := if SeedOf(a).Some? then [Rename(PARTIAL, SEED)] else [];
        RunCat(disk.tree, disk.fuel, [Create(PARTIAL)] + Fill(PARTIAL, e.data), last);
        alive := WriteFile(disk, PARTIAL, e.data);
        ok := a.readable || i + 1 < |a.entries|;
        if alive && ok {
          alive := disk.Do(Rename(PARTIAL, SEED));
        }
        return;
      }
      i := i + 1;
    }
    return true, false;
  }

  /** fetchSeedKernel. */
  method FetchSeed(disk: Disk, tools: Tools, r: SeedRun) returns (alive: bool, ready: bool)
    modifies disk
    ensures var plan := SeedPlan(tools, old(disk.tree), r);
            && (disk.tree, disk.fuel) == Run(old(disk.tree), old(disk.fuel), plan)
            && (alive <==> |plan| <= old(disk.fuel))
    ensures alive ==> ready == SeedReady(tools, old(disk.tree), r)
  {
    if SEED in disk.tree && |disk.tree[SEED]| > 0 {
      return true, true;
    }
    ghost var t, fuel := disk.tree, disk.fuel;
    ghost var fetch := FetchOps(tools, t, r);
    ghost var rest := if FetchOk(tools, t, r) then SeedOps(Contents(tools, t, r)) else [];
    RunCat(t, fuel, fetch, rest);
    RunIsPrefix(t, fuel, fetch);
    assert fetch[..|fetch|] == fetch;
    var tarball := CachePath(TARBALL, r.want);
    var result;
    alive, result := FetchFile(disk, tools.digest, tarball, r.want, r.net);
    if !alive || result != Fetched {
      ready := false;
      return;
    }
    FetchObtains(tools.digest, t, tarball, r.want, r.net);
    alive, ready := ExtractSeed(disk, tools.decode(disk.tree[tarball]));
  }

  /** resolveBootstrap: the path to boot the build machine from, if there is one. */
  method ResolveBootstrap(disk: Disk, out: string, tools: Tools, r: SeedRun) returns (alive: bool, path: Option<string>)
    modifies disk
    ensures var t := old(disk.tree);
            var selfHosts := out in t && |t[out]| >= 1_048_576;
            var plan := if selfHosts then [] else SeedPlan(tools, t, r);
            && (disk.tree, disk.fuel) == Run(t, old(disk.fuel), plan)
            && (alive <==> |plan| <= old(disk.fuel))
            && (alive ==> path == if selfHosts then Some(out) else if SeedReady(tools, t, r) then Some(SEED) else None)
  {
    if out in disk.tree && |disk.tree[out]| >= MIN_KERNEL_BYTES {
      return true, Some(out);
    }
    var ready;
    alive, ready := FetchSeed(disk, tools, r);
    path := if ready then Some(SEED) else None;
  }

  /* ----- one run ----- */

  function After(tools: Tools, t: Tree, r: SeedRun): Tree {
    Run(t, r.fuel, SeedPlan(tools, t, r)).0
  }

  /** The tarball's paths are not the seed's. */
  lemma {:induction false} DestBeside(want: string)
    requires IsPin(want)
    ensures Dest(want) != SEED && Dest(want) + PARTIAL_SUFFIX != SEED
  {
    BareTarball();
    CachePathFlat(TARBALL, want);
    KeyedFirst(TARBALL, want);
    BesideSeed(KeyedName(TARBALL, want));
  }

  lemma {:induction false} BareTarball()
    ensures '/' !in TARBALL && TARBALL[0] == 's'
  {
  }

  lemma {:induction false} BesideSeed(name: string)
    requires name != "" && name[0] == 's'
    ensures name != SEED && name + PARTIAL_SUFFIX != SEED
  {
    assert SEED[0] == 'b' && (name + PARTIAL_SUFFIX)[0] == name[0];
  }

  lemma {:induction false} SeedWritten(t: Tree, a: Archive, n: nat)
    requires n <= |SeedOps(a)|
    ensures var t' := Exec(t, SeedOps(a)[..n]);
            SameAt(t, t', SEED) || (SEED in t' && SeedOf(a) == Some(t'[SEED]))
  {
    var k := SeedAt(a.entries);
    if k < |a.entries| {
      var data := a.entries[k].data;
      var body := [Create(PARTIAL)] + Fill(PARTIAL, data);
      if n <= |body| {
        assert SeedOps(a)[..n] == body[..n];
        FillBelow(PARTIAL, data);
        assert PARTIAL != SEED;
        ExecSpares(t, body[..n], SEED);
      } else {
        assert SeedOps(a)[..n] == body + [Rename(PARTIAL, SEED)];
        FileWritten(t, PARTIAL, data);
        ExecCat(t, body, [Rename(PARTIAL, SEED)]);
        ExecOne(t[PARTIAL := data], Rename(PARTIAL, SEED));
      }
    } else {
      assert SeedOps(a)[..n] == [];
    }
  }

  /** The complete kernel of a tarball with the digest `want`. */
  ghost predicate IsSeedFor(tools: Tools, kernel: string, want: string) {
    exists data :: Matches(tools.digest, data, want) && SeedOf(tools.decode(data)) == Some(kernel)
  }

  /** The run gets past its download. */
  predicate Extracts(tools: Tools, t: Tree, r: SeedRun) {
    FetchOk(tools, t, r) && |FetchOps(tools, t, r)| <= r.fuel
  }

  lemma {:induction false} AfterIs(tools: Tools, t: Tree, r: SeedRun) returns (t1: Tree)
    requires IsPin(r.want) && !Cached(t)
    ensures SameAt(t, t1, SEED)
    ensures Extracts(tools, t, r) ==>
              After(tools, t, r) == Run(t1, r.fuel - |FetchOps(tools, t, r)|, SeedOps(Contents(tools, t, r))).0
    ensures !Extracts(tools, t, r) ==> After(tools, t, r) == t1
  {
    DestBeside(r.want);
    FetchAtomic(tools.digest, t, Dest(r.want), r.want, r.net, r.fuel);
    t1 := TwoParts(t, r.fuel, FetchOps(tools, t, r), FetchOk(tools, t, r), SeedOps(Contents(tools, t, r)));
  }

  /** The old seed, or the run's own. */
  ghost predicate OldOr(t: Tree, t': Tree, own: Option<string>) {
    SameAt(t, t', SEED) || (SEED in t' && Some(t'[SEED]) == own)
  }

  /** The kernel a run would cache: its tarball's, if none is cached and it gets so far. */
  function OwnSeed(tools: Tools, t: Tree, r: SeedRun): Option<string> {
    if !Cached(t) && Extracts(tools, t, r) then SeedOf(Contents(tools, t, r)) else None
  }

  /** Wherever a run is killed, the seed is the one that was there, or the whole kernel of this
      run's tarball, which has this run's digest; and a cached one is never replaced, whatever the
      pin. */
  lemma {:induction false} AfterRun(tools: Tools, t: Tree, r: SeedRun)
    requires IsPin(r.want)
    ensures OldOr(t, After(tools, t, r), OwnSeed(tools, t, r))
  {
    if Cached(t) {
      Idle(tools, t, r);
    } else {
      var t1 := AfterIs(tools, t, r);
      var t', own := After(tools, t, r), OwnSeed(tools, t, r);
      if Extracts(tools, t, r) {
        SeedLeft(t, t1, Contents(tools, t, r), r.fuel - |FetchOps(tools, t, r)|);
      }
      assert OldOr(t, t', own);
    }
  }

  lemma {:induction false} Idle(tools: Tools, t: Tree, r: SeedRun)
    requires Cached(t)
    ensures After(tools, t, r) == t
  {
  }

  lemma {:induction false} SeedLeft(t: Tree, t1: Tree, a: Archive, fuel: nat)
    requires SameAt(t, t1, SEED)
    ensures OldOr(t, Run(t1, fuel, SeedOps(a)).0, SeedOf(a))
  {
    RunIsPrefix(t1, fuel, SeedOps(a));
    SeedWritten(t1, a, Min(fuel, |SeedOps(a)|));
  }

  lemma {:induction false} PlanParts(tools: Tools, t: Tree, r: SeedRun)
    requires !Cached(t) && SeedReady(tools, t, r) && |SeedPlan(tools, t, r)| <= r.fuel
    ensures SeedPlan(tools, t, r) == FetchOps(tools, t, r) + SeedOps(Contents(tools, t, r))
    ensures SeedOf(Contents(tools, t, r)).Some?
  {
  }

  /** A run that is not killed and succeeds leaves a seed. */
  lemma {:induction false} SeedLands(tools: Tools, t: Tree, r: SeedRun)
    requires IsPin(r.want) && !Cached(t) && SeedReady(tools, t, r) && |SeedPlan(tools, t, r)| <= r.fuel
    ensures SEED in After(tools, t, r)
  {
    var fetch, ops := FetchOps(tools, t, r), SeedOps(Contents(tools, t, r));
    PlanParts(tools, t, r);
    RunCat(t, r.fuel, fetch, ops);
    LandsFrom(Run(t, r.fuel, fetch).0, Contents(tools, t, r), r.fuel - |fetch|);
  }

  lemma {:induction false} LandsFrom(t: Tree, a: Archive, fuel: nat)
    requires SeedOf(a).Some? && |SeedOps(a)| <= fuel
    ensures SEED in Run(t, fuel, SeedOps(a)).0
  {
    RunIsPrefix(t, fuel, SeedOps(a));
    WholePrefix(SeedOps(a));
    SeedRenamed(t, a);
  }

  lemma {:induction false} SeedRenamed(t: Tree, a: Archive)
    requires SeedOf(a).Some?
    ensures SEED in Exec(t, SeedOps(a))
  {
    var k := SeedAt(a.entries);
    var body := [Create(PARTIAL)] + Fill(PARTIAL, a.entries[k].data);
    ExecCat(t, body, [Rename(PARTIAL, SEED)]);
    FileWritten(t, PARTIAL, a.entries[k].data);
    ExecOne(t[PARTIAL := a.entries[k].data], Rename(PARTIAL, SEED));
  }

  /* ----- histories ----- */

  function AfterAll(tools: Tools, t: Tree, rs: seq<SeedRun>): Tree {
    if rs == [] then t else After(tools, AfterAll(tools, t, rs[..|rs| - 1]), rs[|rs| - 1])
  }

  /** Over every history of pins and kills, from a directory without one: what is at the seed's path is
      never less than the whole kernel of a tarball that passed the pin of some run. */
  lemma {:induction false} SeedIsWhole(tools: Tools, t: Tree, rs: seq<SeedRun>)
    requires SEED !in t && forall r :: r in rs ==> IsPin(r.want)
    ensures SEED in AfterAll(tools, t, rs) ==>
              exists r :: r in rs && IsSeedFor(tools, AfterAll(tools, t, rs)[SEED], r.want)
  {
    if rs != [] {
      var front, last := rs[..|rs| - 1], rs[|rs| - 1];
      assert last in rs && forall r :: r in front ==> r in rs;
      SeedIsWhole(tools, t, front);
      var t1 := AfterAll(tools, t, front);
      AfterRun(tools, t1, last);
      if FetchOk(tools, t1, last) {
        FetchObtains(tools.digest, t1, Dest(last.want), last.want, last.net);
      }
    }
  }

  /** A cached seed carries no key and stays, whatever the later pins. */
  lemma {:induction false} SeedIsSticky(tools: Tools, t: Tree, rs: seq<SeedRun>)
    requires Cached(t) && forall r :: r in rs ==> IsPin(r.want)
    ensures Cached(AfterAll(tools, t, rs)) && AfterAll(tools, t, rs)[SEED] == t[SEED]
  {
    if rs != [] {
      var front, last := rs[..|rs| - 1], rs[|rs| - 1];
      assert last in rs && forall r :: r in front ==> r in rs;
      SeedIsSticky(tools, t, front);
      AfterRun(tools, AfterAll(tools, t, front), last);
    }
  }

  lemma {:induction false} NewSeed(tools: Tools, t: Tree, r: SeedRun)
    requires IsPin(r.want) && !Cached(t) && Cached(After(tools, t, r))
    ensures FetchOk(tools, t, r) && Some(After(tools, t, r)[SEED]) == SeedOf(Contents(tools, t, r))
    ensures IsSeedFor(tools, After(tools, t, r)[SEED], r.want)
  {
    AfterRun(tools, t, r);
    FetchObtains(tools.digest, t, Dest(r.want), r.want, r.net);
  }

  /** Run `k` is the one that cached the seed: before it none was, since it one always has been. */
  ghost predicate CachedBy(tools: Tools, t: Tree, rs: seq<SeedRun>, k: nat) {
    && k < |rs|
    && (forall j :: 0 <= j <= k ==> !Cached(AfterAll(tools, t, rs[..j])))
    && (forall j :: k < j <= |rs| ==> Cached(AfterAll(tools, t, rs[..j])))
  }

  /** The seed is the whole kernel of this tarball, and the tarball passed this run's pin. */
  ghost predicate SeedOfRun(tools: Tools, seed: string, t: Tree, r: SeedRun) {
    && FetchOk(tools, t, r) && Some(seed) == SeedOf(Contents(tools, t, r))
    && IsSeedFor(tools, seed, r.want)
  }

  lemma {:induction false} PrefixSnoc(rs: seq<SeedRun>, j: nat)
    requires rs != [] && j <= |rs|
    ensures j == |rs| ==> rs[..j] == rs
    ensures j < |rs| ==> rs[..|rs| - 1][..j] == rs[..j]
  {
  }

  /** Over every history of pins and kills, from a directory without a seed: the cached seed is that
      of the one run before which none was cached, whole, whatever pins came after. */
  lemma {:induction false} SeedIsFirst(tools: Tools, t: Tree, rs: seq<SeedRun>) returns (k: nat)
    requires !Cached(t) && forall r :: r in rs ==> IsPin(r.want)
    requires Cached(AfterAll(tools, t, rs))
    ensures CachedBy(tools, t, rs, k)
    ensures SeedOfRun(tools, AfterAll(tools, t, rs)[SEED], AfterAll(tools, t, rs[..k]), rs[k])
  {
    var front, last := rs[..|rs| - 1], rs[|rs| - 1];
    assert last in rs && forall r :: r in front ==> r in rs;
    var t1 := AfterAll(tools, t, front);
    if Cached(t1) {
      k := SeedIsFirst(tools, t, front);
      AfterRun(tools, t1, last);
      Longer(tools, t, rs, k);
    } else {
      k := |rs| - 1;
      NewSeed(tools, t1, last);
      NoneEarlier(tools, t, front);
      FirstNow(tools, t, rs);
    }
  }

  lemma {:induction false} Longer(tools: Tools, t: Tree, rs: seq<SeedRun>, k: nat)
    requires rs != [] && CachedBy(tools, t, rs[..|rs| - 1], k) && Cached(AfterAll(tools, t, rs))
    ensures CachedBy(tools, t, rs, k) && rs[..|rs| - 1][..k] == rs[..k] && rs[..|rs| - 1][k] == rs[k]
  {
    forall j | 0 <= j <= |rs| ensures Cached(AfterAll(tools, t, rs[..j])) <==> j > k {
      PrefixSnoc(rs, j);
    }
    PrefixSnoc(rs, k);
  }

  lemma {:induction false} FirstNow(tools: Tools, t: Tree, rs: seq<SeedRun>)
    requires rs != [] && Cached(AfterAll(tools, t, rs))
    requires var front := rs[..|rs| - 1]; forall j :: 0 <= j <= |front| ==> !Cached(AfterAll(tools, t, front[..j]))
    ensures CachedBy(tools, t, rs, |rs| - 1)
  {
    forall j | 0 <= j <= |rs| ensures Cached(AfterAll(tools, t, rs[..j])) <==> j == |rs| {
      PrefixSnoc(rs, j);
    }
  }

  lemma {:induction false} NoneEarlier(tools: Tools, t: Tree, rs: seq<SeedRun>)
    requires !Cached(AfterAll(tools, t, rs)) && forall r :: r in rs ==> IsPin(r.want)
    ensures forall j :: 0 <= j <= |rs| ==> !Cached(AfterAll(tools, t, rs[..j]))
  {
    if rs == [] {
      assert rs[..0] == rs;
    } else {
      var front, last := rs[..|rs| - 1], rs[|rs| - 1];
      assert last in rs && forall r :: r in front ==> r in rs;
      AfterRun(tools, AfterAll(tools, t, front), last);
      NoneEarlier(tools, t, front);
      forall j | 0 <= j <= |rs| ensures !Cached(AfterAll(tools, t, rs[..j])) {
        PrefixSnoc(rs, j);
      }
    }
  }

  /** When the seed is another pin's all the same: for a digest without collisions, exactly when that
      pin's tarball carries the kernel of the tarball of the run that cached it. */
  lemma {:induction false} OtherPinsSeedIff(tools: Tools, seed: string, t: Tree, r: SeedRun, data: string, want: string)
    requires forall x, y :: EqualFold(tools.digest(x), tools.digest(y)) ==> x == y
    requires SeedOfRun(tools, seed, t, r) && Matches(tools.digest, data, want)
    ensures IsSeedFor(tools, seed, want) <==> SeedOf(tools.decode(data)) == SeedOf(Contents(tools, t, r))
  {
  }
}
