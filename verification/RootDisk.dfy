/** prepareRootfs: the cached Debian root disk, its stamp, and what a kill between the two leaves
    behind (cmd/ossein-kernel). */
module RootDisk {
  import opened Text
  import opened Files

  const DISK := "debian-rootfs.ext4"
  const STAMP := ".debian-rootfs-ref"
  const PARTIAL := "debian-rootfs.ext4.part"

  /** rootfsCacheKey: the image reference and the digest of the init embedded in the disk. */
  function CacheKey(image: string, initDigest: string): string {
    image + "@init:" + initDigest
  }

  /** The key says both: digests being of one length, equal keys mean the same image and init. */
  lemma {:induction false} CacheKeyInjective(i: string, d: string, j: string, e: string)
    requires |d| == |e|
    ensures CacheKey(i, d) == CacheKey(j, e) <==> i == j && d == e
  {
    var a, b := CacheKey(i, d), CacheKey(j, e);
    assert a[|a| - |d|..] == d && b[|b| - |e|..] == e;
    assert a[..|i|] == i && b[..|j|] == j;
  }

  /** What rootfs.Build did: refused before touching the disk file, or wrote it chunk by chunk and
      succeeded or not. A failure removes what it wrote. */
  datatype Build = Build(started: bool, chunks: seq<string>, ok: bool)

  function Output(b: Build): string {
    Flatten(b.chunks)
  }

  function Flatten(chunks: seq<string>): string {
    if chunks == [] then "" else chunks[0] + Flatten(chunks[1..])
  }

  function Appends(chunks: seq<string>): seq<Op> {
    if chunks == [] then [] else [Append(PARTIAL, chunks[0])] + Appends(chunks[1..])
  }

  /** The stamp matches and the disk is not empty. */
  predicate Reuses(t: Tree, key: string) {
    STAMP in t && TrimSpace(t[STAMP]) == key && DISK in t && t[DISK] != ""
  }

  function BuildOps(b: Build): seq<Op> {
    if !b.started then []
    else [Remove(PARTIAL), Create(PARTIAL)] + Appends(b.chunks) + (if b.ok then [] else [Remove(PARTIAL)])
  }

  predicate Builds(b: Build) { b.started && b.ok }

  function RootPlan(t: Tree, key: string, b: Build): seq<Op> {
    if Reuses(t, key) then []
    else BuildOps(b) + (if Builds(b) then [Rename(PARTIAL, DISK), Write(STAMP, key)] else [])
  }

  /** rootfs.Build, as far as the file at its output path goes. */
  method BuildImage(disk: Disk, b: Build) returns (alive: bool, ok: bool)
    modifies disk
    ensures (disk.tree, disk.fuel) == Run(old(disk.tree), old(disk.fuel), BuildOps(b))
    ensures alive <==> |BuildOps(b)| <= old(disk.fuel)
    ensures ok == Builds(b)
  {
    ok := b.started && b.ok;
    if !b.started {
      return true, ok;
    }
    ghost var last := if b.ok then [] else [Remove(PARTIAL)];
    HeadFirst(b.chunks, last);
    alive := disk.Do(Remove(PARTIAL));
    if !alive { return; }
    alive := disk.Do(Create(PARTIAL));
    if !alive { return; }
    RunCat(disk.tree, disk.fuel, Appends(b.chunks), last);
    alive := WriteChunks(disk, b.chunks);
    if alive && !b.ok {
      alive := disk.Do(Remove(PARTIAL));
    }
  }

  lemma {:induction false} HeadFirst(chunks: seq<string>, last: seq<Op>)
    ensures var plan := [Remove(PARTIAL), Create(PARTIAL)] + Appends(chunks) + last;
            && plan[0] == Remove(PARTIAL) && plan[1..][0] == Create(PARTIAL)
            && plan[1..][1..] == Appends(chunks) + last
            && |plan| == 2 + |Appends(chunks) + last|
  {
  }

  method WriteChunks(disk: Disk, chunks: seq<string>) returns (alive: bool)
    modifies disk
    ensures (disk.tree, disk.fuel) == Run(old(disk.tree), old(disk.fuel), Appends(chunks))
    ensures alive <==> |Appends(chunks)| <= old(disk.fuel)
  {
    var left := chunks;
    while left != []
      invariant Run(disk.tree, disk.fuel, Appends(left)) == Run(old(disk.tree), old(disk.fuel), Appends(chunks))
      invariant |Appends(left)| <= disk.fuel <==> |Appends(chunks)| <= old(disk.fuel)
      decreases |left|
    {
      alive := disk.Do(Append(PARTIAL, left[0]));
      if !alive { return; }
      left := left[1..];
    }
    alive := true;
  }

  /** prepareRootfs. */
  method PrepareRootfs(disk: Disk, key: string, b: Build) returns (alive: bool, ready: bool)
    modifies disk
    ensures var plan := RootPlan(old(disk.tree), key, b);
            && (disk.tree, disk.fuel) == Run(old(disk.tree), old(disk.fuel), plan)
            && (alive <==> |plan| <= old(disk.fuel))
    ensures alive ==> (ready <==> Reuses(old(disk.tree), key) || Builds(b))
  {
    if STAMP in disk.tree && TrimSpace(disk.tree[STAMP]) == key {
      if DISK in disk.tree && |disk.tree[DISK]| > 0 {
        return true, true;
      }
    }
    alive, ready := InstallDisk(disk, key, b);
  }

  /** The part of prepareRootfs that builds. */
  method InstallDisk(disk: Disk, key: string, b: Build) returns (alive: bool, ready: bool)
    modifies disk
    ensures var plan := BuildOps(b) + (if Builds(b) then [Rename(PARTIAL, DISK), Write(STAMP, key)] else []);
            && (disk.tree, disk.fuel) == Run(old(disk.tree), old(disk.fuel), plan)
            && (alive <==> |plan| <= old(disk.fuel))
    ensures alive ==> ready == Builds(b)
  {
    ghost var install := if Builds(b) then [Rename(PARTIAL, DISK), Write(STAMP, key)] else [];
    RunCat(disk.tree, disk.fuel, BuildOps(b), install);
    var ok;
    alive, ok := BuildImage(disk, b);
    if !alive {
      return false, false;
    }
    if !ok {
      return true, false;
    }
    assert install == [Rename(PARTIAL, DISK)] + [Write(STAMP, key)];
    RunCat(disk.tree, disk.fuel, [Rename(PARTIAL, DISK)], [Write(STAMP, key)]);
    alive := disk.Do(Rename(PARTIAL, DISK));
    if !alive {
      return false, false;
    }
    alive := disk.Do(Write(STAMP, key));
    return alive, true;
  }

  /* ----- one run ----- */

  lemma {:induction false} AppendsFill(t: Tree, chunks: seq<string>)
    requires PARTIAL in t
    ensures Exec(t, Appends(chunks)) == t[PARTIAL := t[PARTIAL] + Flatten(chunks)]
    decreases |chunks|
  {
    if chunks == [] {
      assert t[PARTIAL] + "" == t[PARTIAL];
    } else {
      var t1 := t[PARTIAL := t[PARTIAL] + chunks[0]];
      assert Appends(chunks)[1..] == Appends(chunks[1..]);
      AppendsFill(t1, chunks[1..]);
      assert t1[PARTIAL] + Flatten(chunks[1..]) == t[PARTIAL] + Flatten(chunks);
    }
  }

  lemma {:induction false} AppendsSpare(chunks: seq<string>)
    ensures forall op :: op in Appends(chunks) ==> op.Append? && op.path == PARTIAL
    ensures |Appends(chunks)| == |chunks|
  {
    if chunks != [] { AppendsSpare(chunks[1..]); }
  }

  lemma {:induction false} BuildOpsSpare(b: Build, path: string)
    requires path != PARTIAL
    ensures forall op :: op in BuildOps(b) ==> Spares(op, path)
  {
    AppendsSpare(b.chunks);
  }

  lemma {:induction false} BuildFills(t: Tree, b: Build)
    requires Builds(b)
    ensures Exec(t, BuildOps(b)) == t[PARTIAL := Output(b)]
  {
    var head := [Remove(PARTIAL), Create(PARTIAL)];
    assert BuildOps(b) == head + Appends(b.chunks);
    ExecCat(t, head, Appends(b.chunks));
    var t1 := (t - {PARTIAL})[PARTIAL := ""];
    assert head == [Remove(PARTIAL)] + [Create(PARTIAL)];
    ExecCat(t, [Remove(PARTIAL)], [Create(PARTIAL)]);
    ExecOne(t, Remove(PARTIAL));
    ExecOne(t - {PARTIAL}, Create(PARTIAL));
    AppendsFill(t1, b.chunks);
    assert "" + Output(b) == Output(b);
    assert t1[PARTIAL := Output(b)] == t[PARTIAL := Output(b)];
  }

  /** How far a run got with what matters: nothing installed, the disk renamed into place, or the
      stamp written too. */
  datatype Progress = Untouched | Renamed | Stamped

  function ProgressOf(t: Tree, r: RootRun): Progress {
    if Reuses(t, r.key) || !Builds(r.build) || r.fuel <= |BuildOps(r.build)| then Untouched
    else if r.fuel == |BuildOps(r.build)| + 1 then Renamed
    else Stamped
  }

  /** One run of the program: its key, what building did, and when it was killed. A build only
      succeeds for a proper image reference, so its key has no space around it. */
  datatype RootRun = RootRun(key: string, build: Build, fuel: nat)

  predicate ValidRun(r: RootRun) {
    Builds(r.build) ==> TrimSpace(r.key) == r.key && Output(r.build) != ""
  }

  function After(t: Tree, r: RootRun): Tree {
    Run(t, r.fuel, RootPlan(t, r.key, r.build)).0
  }

  /** The disk and the stamp after a run, by how far it got; a complete build or nothing. */
  lemma {:induction false} AfterRun(t: Tree, r: RootRun)
    ensures var t', p := After(t, r), ProgressOf(t, r);
            && (p == Untouched ==> SameAt(t, t', DISK) && SameAt(t, t', STAMP))
            && (p != Untouched ==> DISK in t' && t'[DISK] == Output(r.build))
            && (p == Renamed ==> SameAt(t, t', STAMP))
            && (p == Stamped ==> STAMP in t' && t'[STAMP] == r.key)
  {
    var plan, ops := RootPlan(t, r.key, r.build), BuildOps(r.build);
    RunIsPrefix(t, r.fuel, plan);
    var n := Min(r.fuel, |plan|);
    var p := ProgressOf(t, r);
    if p == Untouched {
      if Reuses(t, r.key) {
        assert plan[..n] == [];
      } else {
        assert plan[..n] == ops[..n];
        BuildOpsSpare(r.build, DISK);
        BuildOpsSpare(r.build, STAMP);
        ExecSpares(t, plan[..n], DISK);
        ExecSpares(t, plan[..n], STAMP);
      }
    } else {
      var t1 := t[PARTIAL := Output(r.build)];
      BuildFills(t, r.build);
      var rename, stamp := Rename(PARTIAL, DISK), Write(STAMP, r.key);
      ExecCat(t, ops, [rename]);
      ExecOne(t1, rename);
      if p == Renamed {
        assert plan[..n] == ops + [rename];
      } else {
        assert plan[..n] == ops + [rename] + [stamp];
        ExecCat(t, ops + [rename], [stamp]);
        ExecOne(Step(t1, rename), stamp);
      }
    }
  }

  /** A build that fails removes what it wrote. */
  lemma {:induction false} FailedBuildCleans(t: Tree, b: Build)
    requires b.started && !b.ok
    ensures PARTIAL !in Exec(t, BuildOps(b))
  {
    var body := [Remove(PARTIAL), Create(PARTIAL)] + Appends(b.chunks);
    ExecCat(t, body, [Remove(PARTIAL)]);
    ExecOne(Exec(t, body), Remove(PARTIAL));
  }

  /** A missing or empty disk is never reused, whatever the stamp says: a run that builds one and is not
      killed installs it. */
  lemma {:induction false} NothingToReuse(t: Tree, r: RootRun)
    requires DISK !in t || t[DISK] == ""
    requires Builds(r.build) && |RootPlan(t, r.key, r.build)| <= r.fuel
    ensures |BuildOps(r.build)| + 2 <= r.fuel
    ensures var t' := After(t, r); DISK in t' && t'[DISK] == Output(r.build) && STAMP in t' && t'[STAMP] == r.key
  {
    AfterRun(t, r);
  }

  /* ----- histories ----- */

  function AfterAll(t: Tree, rs: seq<RootRun>): Tree {
    if rs == [] then t else After(AfterAll(t, rs[..|rs| - 1]), rs[|rs| - 1])
  }

  /** How far each run of the history got. */
  function Reached(t: Tree, rs: seq<RootRun>): (ps: seq<Progress>)
    ensures |ps| == |rs|
  {
    if rs == [] then []
    else Reached(t, rs[..|rs| - 1]) + [ProgressOf(AfterAll(t, rs[..|rs| - 1]), rs[|rs| - 1])]
  }

  /** The last run that put a disk in place, and the last that wrote a stamp: one past its index,
      0 for none. */
  function LastDisk(ps: seq<Progress>): (n: nat)
    ensures n <= |ps|
    ensures n > 0 ==> ps[n - 1] != Untouched
    ensures forall i :: n <= i < |ps| ==> ps[i] == Untouched
  {
    if ps == [] then 0 else if ps[|ps| - 1] != Untouched then |ps| else LastDisk(ps[..|ps| - 1])
  }

  function LastStamp(ps: seq<Progress>): (n: nat)
    ensures n <= LastDisk(ps)
    ensures n > 0 ==> ps[n - 1] == Stamped
    ensures forall i :: n <= i < |ps| ==> ps[i] != Stamped
  {
    if ps == [] then 0 else if ps[|ps| - 1] == Stamped then |ps| else LastStamp(ps[..|ps| - 1])
  }

  /** What the two files hold, in terms of the runs that last wrote them. */
  ghost predicate Written(t: Tree, rs: seq<RootRun>, d: nat, s: nat)
    requires d <= |rs| && s <= |rs|
  {
    && (if d == 0 then DISK !in t else DISK in t && t[DISK] == Output(rs[d - 1].build) && Builds(rs[d - 1].build))
    && (if s == 0 then STAMP !in t else STAMP in t && t[STAMP] == rs[s - 1].key && Builds(rs[s - 1].build))
  }

  /** Written, with the two runs looked up in the history. */
  ghost predicate Told(t: Tree, rs: seq<RootRun>, ps: seq<Progress>)
    requires |ps| == |rs|
  {
    Written(t, rs, LastDisk(ps), LastStamp(ps))
  }

  lemma {:induction false} WrittenStep(t: Tree, rs: seq<RootRun>, r: RootRun, ps: seq<Progress>)
    requires |ps| == |rs| && Told(t, rs, ps)
    ensures Told(After(t, r), rs + [r], ps + [ProgressOf(t, r)])
  {
    AfterRun(t, r);
    assert (ps + [ProgressOf(t, r)])[..|ps|] == ps;
  }

  lemma {:induction false} LastOff(rs: seq<RootRun>)
    requires rs != []
    ensures rs[..|rs| - 1] + [rs[|rs| - 1]] == rs
  {
  }

  lemma {:induction false} HistorySnoc(t: Tree, rs: seq<RootRun>)
    requires rs != []
    ensures var front, r := rs[..|rs| - 1], rs[|rs| - 1];
            && AfterAll(t, rs) == After(AfterAll(t, front), r)
            && Reached(t, rs) == Reached(t, front) + [ProgressOf(AfterAll(t, front), r)]
  {
  }

  /** From an empty scratch directory, whatever the history of keys and kills: the disk at its
      final path is the complete output of the last run that renamed one, and the stamp is the key
      of the last run that wrote one. */
  lemma {:induction false} DiskAndStamp(t: Tree, rs: seq<RootRun>)
    requires DISK !in t && STAMP !in t
    ensures Told(AfterAll(t, rs), rs, Reached(t, rs))
  {
    if rs != [] {
      var front, r := rs[..|rs| - 1], rs[|rs| - 1];
      LastOff(rs);
      DiskAndStamp(t, front);
      WrittenStep(AfterAll(t, front), front, r, Reached(t, front));
      HistorySnoc(t, rs);
    }
  }

  /** The disk is the output of a build for `key` in this history. */
  ghost predicate BuiltFor(rs: seq<RootRun>, disk: string, key: string) {
    exists r :: r in rs && Builds(r.build) && r.key == key && disk == Output(r.build)
  }

  /** Builds for different keys never give the same disk. */
  ghost predicate OutputsTell(rs: seq<RootRun>) {
    forall r, q :: r in rs && q in rs && Builds(r.build) && Builds(q.build) && r.key != q.key ==>
      Output(r.build) != Output(q.build)
  }

  /** The last run that put a disk in place also stamped it, or was for `key` itself. */
  ghost predicate NoGapFor(rs: seq<RootRun>, ps: seq<Progress>, key: string)
    requires |ps| == |rs|
  {
    LastDisk(ps) == LastStamp(ps) || (LastDisk(ps) > 0 && rs[LastDisk(ps) - 1].key == key)
  }

  /** What a run for `key` would find: it reuses the disk exactly when the last stamp written is its
      key, and is then handed the disk of the last run that renamed one. */
  ghost predicate ReuseIs(t: Tree, rs: seq<RootRun>, ps: seq<Progress>, key: string)
    requires |ps| == |rs|
  {
    var d, s := LastDisk(ps), LastStamp(ps);
    && (Reuses(t, key) <==> s > 0 && rs[s - 1].key == key)
    && (Reuses(t, key) ==> d > 0 && t[DISK] == Output(rs[d - 1].build) && Builds(rs[d - 1].build))
  }

  lemma {:induction false} ReuseOfWritten(t: Tree, rs: seq<RootRun>, ps: seq<Progress>, key: string)
    requires |ps| == |rs| && Told(t, rs, ps)
    requires forall r :: r in rs ==> ValidRun(r)
    ensures ReuseIs(t, rs, ps, key)
  {
    var d, s := LastDisk(ps), LastStamp(ps);
    if s > 0 {
      assert rs[s - 1] in rs && rs[d - 1] in rs;
    }
  }

  lemma {:induction false} RightIff(t: Tree, rs: seq<RootRun>, ps: seq<Progress>, key: string)
    requires |ps| == |rs| && ReuseIs(t, rs, ps, key) && Reuses(t, key)
    ensures NoGapFor(rs, ps, key) ==> BuiltFor(rs, t[DISK], key)
    ensures OutputsTell(rs) && BuiltFor(rs, t[DISK], key) ==> NoGapFor(rs, ps, key)
  {
    assert rs[LastDisk(ps) - 1] in rs;
  }

  /** The gap, exactly, over every history of keys and kills. A reused disk was built for the key if
      the last run that renamed one also wrote its stamp or was for the key; and, where the bytes of a
      disk tell what it was built for, only if. */
  lemma {:induction false} ReuseIsRightIff(t: Tree, rs: seq<RootRun>, key: string)
    requires DISK !in t && STAMP !in t
    requires forall r :: r in rs ==> ValidRun(r)
    ensures ReuseIs(AfterAll(t, rs), rs, Reached(t, rs), key)
    ensures Reuses(AfterAll(t, rs), key) && NoGapFor(rs, Reached(t, rs), key) ==>
              BuiltFor(rs, AfterAll(t, rs)[DISK], key)
    ensures Reuses(AfterAll(t, rs), key) && OutputsTell(rs) ==>
              (BuiltFor(rs, AfterAll(t, rs)[DISK], key) <==> NoGapFor(rs, Reached(t, rs), key))
  {
    DiskAndStamp(t, rs);
    ReuseOfWritten(AfterAll(t, rs), rs, Reached(t, rs), key);
    if Reuses(AfterAll(t, rs), key) {
      RightIff(AfterAll(t, rs), rs, Reached(t, rs), key);
    }
  }

  /** No kill in the gap, no wrong disk: in a history where every run that renamed also stamped,
      what is reused for a key was built for it. */
  lemma {:induction false} NoGapNoMixup(t: Tree, rs: seq<RootRun>, key: string)
    requires DISK !in t && STAMP !in t
    requires forall r :: r in rs ==> ValidRun(r)
    requires Renamed !in Reached(t, rs)
    requires Reuses(AfterAll(t, rs), key)
    ensures BuiltFor(rs, AfterAll(t, rs)[DISK], key)
  {
    NoneRenamed(Reached(t, rs));
    ReuseIsRightIff(t, rs, key);
  }

  lemma {:induction false} NoneRenamed(ps: seq<Progress>)
    requires Renamed !in ps
    ensures LastDisk(ps) == LastStamp(ps)
  {
    var d := LastDisk(ps);
    assert d > 0 ==> ps[d - 1] in ps;
  }

  /** The gap is real: a finished run for one key, a run for another killed between the rename and
      the stamp, and a return to the first key is handed the second key's disk. */
  lemma {:induction false} RevertReusesNewerDisk(k1: string, b1: Build, k2: string, b2: Build)
    requires k1 != k2 && TrimSpace(k1) == k1 && Builds(b1) && Builds(b2)
    requires Output(b1) != "" && Output(b2) != ""
    ensures var rs := [RootRun(k1, b1, |BuildOps(b1)| + 2), RootRun(k2, b2, |BuildOps(b2)| + 1)];
            var t := AfterAll(map[], rs);
            Reuses(t, k1) && t[DISK] == Output(b2)
  {
    var r1, r2 := RootRun(k1, b1, |BuildOps(b1)| + 2), RootRun(k2, b2, |BuildOps(b2)| + 1);
    var t0: Tree := map[];
    assert [r1, r2][..1] == [r1] && [r1][..0] == [];
    var t1 := After(t0, r1);
    assert AfterAll(t0, [r1]) == t1;
    AfterRun(t0, r1);
    AfterRun(t1, r2);
  }
}
