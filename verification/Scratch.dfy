/** A whole run of the build on its scratch directory: every cached artifact prepared in turn, the
    work of the machines in between, and one kill anywhere (cmd/ossein-kernel). */
module Scratch {
  import opened Text
  import opened Paths
  import opened Files
  import opened Download
  import opened Fetch
  import opened Archives
  import LlvmPaths
  import SeedKernel
  import RootDisk
  import LlvmTree

  const SHARE := "kernel/"
  const SOURCE_NAME := "source.tar.xz"
  const SOURCE := SHARE + SOURCE_NAME

  /* ----- who owns which file ----- */

  /** The four artifacts that are kept from run to run, and everything else: the staged share, the smoke
      test's, the kernels. */
  datatype Area = Seed | Root | Source | Llvm | Elsewhere

  predicate Begins(p: string, a: char, b: char) {
    |p| >= 2 && p[0] == a && p[1] == b
  }

  /** Areas are told apart by how the names in them begin; of the share only the source's tarballs are
      kept. */
  function AreaOf(p: string): Area {
    if Begins(p, 's', 'e') || Begins(p, 'b', 'o') then Seed
    else if Begins(p, 'd', 'e') || Begins(p, '.', 'd') then Root
    else if Begins(p, 'l', 'l') then Llvm
    else if Begins(p, 'k', 'e') && |p| > |SHARE| + 1 && p[|SHARE|] == 's' && p[|SHARE| + 1] == 'o' then Source
    else Elsewhere
  }

  function In(t: Tree, a: Area): Tree {
    map p | p in t && AreaOf(p) == a :: t[p]
  }

  predicate OpIn(op: Op, a: Area) {
    match op
    case Rename(p, q) => AreaOf(p) == a && AreaOf(q) == a
    case _ => AreaOf(op.path) == a
  }

  ghost predicate AllIn(ops: seq<Op>, a: Area) {
    forall op :: op in ops ==> OpIn(op, a)
  }

  lemma {:induction false} InUpdate(t: Tree, p: string, data: string, a: Area)
    ensures In(t[p := data], a) == if AreaOf(p) == a then In(t, a)[p := data] else In(t, a)
  {
  }

  lemma {:induction false} InRemove(t: Tree, p: string, a: Area)
    ensures In(t - {p}, a) == In(t, a) - {p}
    ensures AreaOf(p) != a ==> In(t - {p}, a) == In(t, a)
  {
  }

  lemma {:induction false} StepIn(t: Tree, op: Op, a: Area, b: Area)
    requires OpIn(op, a)
    ensures In(Step(t, op), b) == if a == b then Step(In(t, b), op) else In(t, b)
  {
    match op {
      case Create(p) => InUpdate(t, p, "", b);
      case Append(p, data) => if p in t { InUpdate(t, p, t[p] + data, b); }
      case Remove(p) => InRemove(t, p, b);
      case Rename(p, q) =>
        if p in t {
          InUpdate(t - {p}, q, t[p], b);
          InRemove(t, p, b);
        }
      case Write(p, data) => InUpdate(t, p, data, b);
    }
  }

  /** A plan that keeps to one area does there what it would do alone, and nothing anywhere else. */
  lemma {:induction false} RunIn(t: Tree, fuel: nat, ops: seq<Op>, a: Area, b: Area)
    requires AllIn(ops, a)
    ensures In(Run(t, fuel, ops).0, b) == if a == b then Run(In(t, b), fuel, ops).0 else In(t, b)
    decreases |ops|
  {
    if ops != [] && fuel > 0 {
      assert ops[0] in ops;
      StepIn(t, ops[0], a, b);
      RunIn(Step(t, ops[0]), fuel - 1, ops[1..], a, b);
    }
  }

  /* ----- one step of a run ----- */

  datatype Act =
    | SeedAct(seed: SeedKernel.SeedRun)
    | RootAct(root: RootDisk.RootRun)
    | SourceAct(source: Fetching)
    | LlvmAct(llvm: LlvmTree.LlvmRun)
    | OtherAct(ops: seq<Op>, spare: nat)

  function ActArea(act: Act): Area {
    match act
    case SeedAct(_) => Seed
    case RootAct(_) => Root
    case SourceAct(_) => Source
    case LlvmAct(_) => Llvm
    case OtherAct(_, _) => Elsewhere
  }

  function Fuel(act: Act): nat {
    match act
    case SeedAct(r) => r.fuel
    case RootAct(r) => r.fuel
    case SourceAct(f) => f.fuel
    case LlvmAct(r) => r.fuel
    case OtherAct(_, fuel) => fuel
  }

  function WithFuel(act: Act, fuel: nat): Act {
    match act
    case SeedAct(r) => SeedAct(r.(fuel := fuel))
    case RootAct(r) => RootAct(r.(fuel := fuel))
    case SourceAct(f) => SourceAct(f.(fuel := fuel))
    case LlvmAct(r) => LlvmAct(r.(fuel := fuel))
    case OtherAct(ops, _) => OtherAct(ops, fuel)
  }

  function Plan(tools: Tools, t: Tree, act: Act): seq<Op> {
    match act
    case SeedAct(r) => SeedKernel.SeedPlan(tools, t, r)
    case RootAct(r) => RootDisk.RootPlan(t, r.key, r.build)
    case SourceAct(f) => FetchPlan(tools.digest, t, CachePath(SOURCE, f.want), f.want, f.net)
    case LlvmAct(r) => LlvmTree.LlvmPlan(tools, t, r)
    case OtherAct(ops, _) => ops
  }

  /** The step returns no error, if it is not killed. */
  predicate Succeeds(tools: Tools, t: Tree, act: Act) {
    match act
    case SeedAct(r) => SeedKernel.SeedReady(tools, t, r)
    case RootAct(r) => RootDisk.Reuses(t, r.key) || RootDisk.Builds(r.build)
    case SourceAct(f) => FetchAnswer(tools.digest, t, CachePath(SOURCE, f.want), f.want, f.net) == Fetched
    case LlvmAct(r) => LlvmTree.LlvmReady(tools, t, r)
    case OtherAct(_, _) => true
  }

  function After(tools: Tools, t: Tree, act: Act): Tree {
    Run(t, Fuel(act), Plan(tools, t, act)).0
  }

  /** Pins are pins, clearing takes what is there, and the rest of the run keeps off the artifacts. */
  ghost predicate Proper(tools: Tools, t: Tree, act: Act) {
    match act
    case SeedAct(r) => IsPin(r.want)
    case RootAct(_) => true
    case SourceAct(f) => IsPin(f.want)
    case LlvmAct(r) => LlvmTree.Proper(tools, In(t, Llvm), r)
    case OtherAct(ops, _) => AllIn(ops, Elsewhere)
  }

  /* ----- each step keeps to its area ----- */

  lemma {:induction false} NamesBegin(name: string, want: string, a: char, b: char)
    requires |want| >= CACHE_KEY_LEN && Begins(name, a, b) && a != '.' && b != '.'
    ensures Begins(KeyedName(name, want), a, b)
  {
    var dot := IndexOf(name, '.');
    assert dot >= 2;
    assert KeyedName(name, want)[..dot] == name[..dot];
  }

  lemma {:induction false} FlatArea(base: string, want: string, a: char, b: char)
    requires IsPin(want) && '/' !in base && Begins(base, a, b) && a != '.' && b != '.'
    ensures Begins(CachePath(base, want), a, b) && Begins(CachePath(base, want) + PARTIAL_SUFFIX, a, b)
  {
    CachePathFlat(base, want);
    NamesBegin(base, want, a, b);
  }

  lemma {:induction false} ShareComponents()
    ensures Components(SHARE) == ["kernel"] && !Rooted(SHARE)
  {
    SplitNone("kernel", '/');
    SplitNone("", '/');
    SplitCat("kernel", "", '/');
    assert SHARE == "kernel" + ['/'] + "";
    WalkInto("kernel");
  }

  lemma {:induction false} WalkInto(name: string)
    requires IsName(name) && name != ".."
    ensures PushAll(false, [], [name] + [""]) == [name]
  {
    PushAllCat(false, [], [name], [""]);
    PushOne(false, [], name);
    PushOne(false, [name], "");
    assert [] + [name] == [name];
  }

  lemma {:induction false} SourceSplits()
    ensures LlvmPaths.LastSlash(SOURCE) == |SHARE|
    ensures SOURCE[..|SHARE|] == SHARE && SOURCE[|SHARE|..] == SOURCE_NAME
  {
    LlvmPaths.LastSlashAt(SHARE, SOURCE_NAME);
  }

  lemma {:induction false} SourceSpelled(want: string)
    requires IsPin(want)
    ensures CachePath(SOURCE, want) == SHARE + KeyedName(SOURCE_NAME, want)
  {
    var name := KeyedName(SOURCE_NAME, want);
    SourceSplits();
    ShareComponents();
    CachePathSpelled(SOURCE, want);
    RenderLast(false, ["kernel"], name);
    OneName();
    assert ["kernel"] + [name] != [];
  }

  lemma {:induction false} OneName()
    ensures Render(false, ["kernel"]) + "/" == SHARE
  {
  }

  lemma {:induction false} SourceArea(want: string)
    requires IsPin(want)
    ensures AreaOf(CachePath(SOURCE, want)) == Source && AreaOf(CachePath(SOURCE, want) + PARTIAL_SUFFIX) == Source
  {
    SourceSpelled(want);
    NamesBegin(SOURCE_NAME, want, 's', 'o');
    InShare(KeyedName(SOURCE_NAME, want), "");
    InShare(KeyedName(SOURCE_NAME, want), PARTIAL_SUFFIX);
    assert CachePath(SOURCE, want) + "" == CachePath(SOURCE, want);
  }

  lemma {:induction false} InShare(name: string, suffix: string)
    requires Begins(name, 's', 'o')
    ensures AreaOf(SHARE + name + suffix) == Source
  {
    var p := SHARE + name + suffix;
    assert p[0] == SHARE[0] == 'k' && p[1] == SHARE[1] == 'e';
    assert p[|SHARE|] == name[0] && p[|SHARE| + 1] == name[1];
  }

  lemma {:induction false} FetchIn(tools: Tools, t: Tree, dest: string, want: string, net: nat -> Attempt, a: Area)
    requires AreaOf(dest) == a && AreaOf(dest + PARTIAL_SUFFIX) == a
    ensures AllIn(FetchPlan(tools.digest, t, dest, want, net), a)
    ensures FetchPlan(tools.digest, In(t, a), dest, want, net) == FetchPlan(tools.digest, t, dest, want, net)
    ensures FetchAnswer(tools.digest, In(t, a), dest, want, net) == FetchAnswer(tools.digest, t, dest, want, net)
    ensures Obtained(tools.digest, In(t, a), dest, want, net) == Obtained(tools.digest, t, dest, want, net)
  {
    DownloadOnlyTemp(dest + PARTIAL_SUFFIX, net, 1);
  }

  lemma {:induction false} SeedIn(tools: Tools, t: Tree, r: SeedKernel.SeedRun)
    requires IsPin(r.want)
    ensures AllIn(SeedKernel.SeedPlan(tools, t, r), Seed)
    ensures SeedKernel.SeedPlan(tools, In(t, Seed), r) == SeedKernel.SeedPlan(tools, t, r)
  {
    FlatArea(SeedKernel.TARBALL, r.want, 's', 'e');
    FetchIn(tools, t, SeedKernel.Dest(r.want), r.want, r.net, Seed);
    var a := SeedKernel.Contents(tools, t, r);
    assert SeedKernel.Contents(tools, In(t, Seed), r) == a;
    SeedOpsIn(a);
    SameCached(t);
    assert SeedKernel.FetchOps(tools, In(t, Seed), r) == SeedKernel.FetchOps(tools, t, r);
    assert AllIn(SeedKernel.FetchOps(tools, t, r), Seed);
  }

  lemma {:induction false} SameCached(t: Tree)
    ensures SeedKernel.Cached(In(t, Seed)) == SeedKernel.Cached(t)
  {
    assert AreaOf(SeedKernel.SEED) == Seed;
  }

  lemma {:induction false} SeedOpsIn(a: Archive)
    ensures AllIn(SeedKernel.SeedOps(a), Seed)
  {
    var k := SeedKernel.SeedAt(a.entries);
    assert AreaOf(SeedKernel.SEED) == Seed && AreaOf(SeedKernel.PARTIAL) == Seed;
    if k < |a.entries| {
      FillBelow(SeedKernel.PARTIAL, a.entries[k].data);
    }
  }

  lemma {:induction false} RootIn(t: Tree, r: RootDisk.RootRun)
    ensures AllIn(RootDisk.RootPlan(t, r.key, r.build), Root)
    ensures RootDisk.RootPlan(In(t, Root), r.key, r.build) == RootDisk.RootPlan(t, r.key, r.build)
  {
    assert AreaOf(RootDisk.DISK) == Root && AreaOf(RootDisk.STAMP) == Root && AreaOf(RootDisk.PARTIAL) == Root;
    RootDisk.AppendsSpare(r.build.chunks);
  }

  lemma {:induction false} LlvmBegins(p: string)
    requires HasPrefix(p, LlvmTree.ROOT)
    ensures AreaOf(p) == Llvm
  {
    PrefixChar(p, LlvmTree.ROOT, 0);
    PrefixChar(p, LlvmTree.ROOT, 1);
  }

  lemma {:induction false} BelowIn(t: Tree)
    ensures LlvmTree.Below(In(t, Llvm)) == LlvmTree.Below(t)
  {
    forall p | HasPrefix(p, LlvmTree.ROOT) ensures p in In(t, Llvm) <==> p in t {
      LlvmBegins(p);
    }
  }

  lemma {:induction false} BelowIsLlvm(ops: seq<Op>)
    requires LlvmTree.WritesBelow(ops)
    ensures AllIn(ops, Llvm)
  {
    forall op | op in ops ensures OpIn(op, Llvm) {
      LlvmBegins(op.path);
    }
  }

  lemma {:induction false} TreeOpsIn(a: Archive, want: string, order: seq<string>)
    requires forall p :: p in order ==> HasPrefix(p, LlvmTree.ROOT)
    ensures AllIn(LlvmTree.RemoveOps(order) + LlvmTree.ExtractOps(a, want), Llvm)
  {
    LlvmTree.RemoveOpsAre(order);
    BelowIsLlvm(LlvmTree.RemoveOps(order));
    LlvmTree.EntriesBelow(a.entries);
    BelowIsLlvm(LlvmTree.EntriesOps(a.entries));
    LlvmBegins(LlvmTree.STAMP);
  }

  lemma {:induction false} LlvmIn(tools: Tools, t: Tree, r: LlvmTree.LlvmRun)
    requires LlvmTree.Proper(tools, In(t, Llvm), r)
    ensures AllIn(LlvmTree.LlvmPlan(tools, t, r), Llvm)
    ensures LlvmTree.LlvmPlan(tools, In(t, Llvm), r) == LlvmTree.LlvmPlan(tools, t, r)
  {
    FlatArea(LlvmTree.TARBALL, r.want, 'l', 'l');
    LlvmPlanIn(tools, t, r);
    FetchIn(tools, t, LlvmTree.Dest(r.want), r.want, r.net, Llvm);
    SameReuse(t, r.want);
    LlvmParts(tools, t, r);
    LlvmParts(tools, In(t, Llvm), r);
  }

  lemma {:induction false} LlvmPlanIn(tools: Tools, t: Tree, r: LlvmTree.LlvmRun)
    requires AreaOf(LlvmTree.Dest(r.want)) == Llvm && AreaOf(LlvmTree.Dest(r.want) + PARTIAL_SUFFIX) == Llvm
    requires forall p :: p in r.order ==> HasPrefix(p, LlvmTree.ROOT)
    ensures AllIn(LlvmTree.LlvmPlan(tools, t, r), Llvm)
  {
    FetchIn(tools, t, LlvmTree.Dest(r.want), r.want, r.net, Llvm);
    TreeOpsIn(LlvmTree.Contents(tools, t, r), r.want, r.order);
    LlvmParts(tools, t, r);
  }

  lemma {:induction false} SameReuse(t: Tree, want: string)
    ensures LlvmTree.Reuses(In(t, Llvm), want) == LlvmTree.Reuses(t, want)
  {
    LlvmBegins(LlvmTree.STAMP);
  }

  lemma {:induction false} LlvmParts(tools: Tools, t: Tree, r: LlvmTree.LlvmRun)
    ensures LlvmTree.LlvmPlan(tools, t, r)
         == if LlvmTree.Reuses(t, r.want) then []
            else
              FetchPlan(tools.digest, t, LlvmTree.Dest(r.want), r.want, r.net)
              + if FetchAnswer(tools.digest, t, LlvmTree.Dest(r.want), r.want, r.net) == Fetched then
                  LlvmTree.RemoveOps(r.order)
                  + LlvmTree.ExtractOps(
                      tools.decode(Obtained(tools.digest, t, LlvmTree.Dest(r.want), r.want, r.net)), r.want)
                else []
  {
  }

  /** A step does in its own area what it would do with nothing else there, and leaves every other area
      as it is. */
  lemma {:induction false} ActKeepsToItsArea(tools: Tools, t: Tree, act: Act, b: Area)
    requires Proper(tools, t, act)
    ensures In(After(tools, t, act), b) == if b == ActArea(act) then After(tools, In(t, b), act) else In(t, b)
  {
    PlanIn(tools, t, act);
    RunIn(t, Fuel(act), Plan(tools, t, act), ActArea(act), b);
  }

  lemma {:induction false} PlanIn(tools: Tools, t: Tree, act: Act)
    requires Proper(tools, t, act)
    ensures AllIn(Plan(tools, t, act), ActArea(act))
    ensures Plan(tools, In(t, ActArea(act)), act) == Plan(tools, t, act)
  {
    match act {
      case SeedAct(r) => SeedIn(tools, t, r);
      case RootAct(r) => RootIn(t, r);
      case SourceAct(f) =>
        SourceArea(f.want);
        FetchIn(tools, t, CachePath(SOURCE, f.want), f.want, f.net, Source);
      case LlvmAct(r) => LlvmIn(tools, t, r);
      case OtherAct(_, _) =>
    }
  }

  /* ----- histories ----- */

  function AfterAll(tools: Tools, t: Tree, acts: seq<Act>): Tree {
    if acts == [] then t else After(tools, AfterAll(tools, t, acts[..|acts| - 1]), acts[|acts| - 1])
  }

  ghost predicate ProperAll(tools: Tools, t: Tree, acts: seq<Act>) {
    acts == []
    || (ProperAll(tools, t, acts[..|acts| - 1])
        && Proper(tools, AfterAll(tools, t, acts[..|acts| - 1]), acts[|acts| - 1]))
  }

  function Seeds(acts: seq<Act>): seq<SeedKernel.SeedRun> {
    if acts == [] then []
    else Seeds(acts[..|acts| - 1]) + (if acts[|acts| - 1].SeedAct? then [acts[|acts| - 1].seed] else [])
  }

  function Roots(acts: seq<Act>): seq<RootDisk.RootRun> {
    if acts == [] then []
    else Roots(acts[..|acts| - 1]) + (if acts[|acts| - 1].RootAct? then [acts[|acts| - 1].root] else [])
  }

  function Sources(acts: seq<Act>): seq<Fetching> {
    if acts == [] then []
    else Sources(acts[..|acts| - 1]) + (if acts[|acts| - 1].SourceAct? then [acts[|acts| - 1].source] else [])
  }

  function Llvms(acts: seq<Act>): seq<LlvmTree.LlvmRun> {
    if acts == [] then []
    else Llvms(acts[..|acts| - 1]) + (if acts[|acts| - 1].LlvmAct? then [acts[|acts| - 1].llvm] else [])
  }

  lemma {:induction false} SeedStep(tools: Tools, t0: Tree, rs: seq<SeedKernel.SeedRun>, t: Tree, act: Act)
    requires In(t, Seed) == SeedKernel.AfterAll(tools, t0, rs) && Proper(tools, t, act)
    ensures In(After(tools, t, act), Seed)
         == SeedKernel.AfterAll(tools, t0, rs + if act.SeedAct? then [act.seed] else [])
  {
    ActKeepsToItsArea(tools, t, act, Seed);
    if act.SeedAct? {
      assert (rs + [act.seed])[..|rs|] == rs;
    } else {
      assert rs + [] == rs;
    }
  }

  lemma {:induction false} RootStep(tools: Tools, t0: Tree, rs: seq<RootDisk.RootRun>, t: Tree, act: Act)
    requires In(t, Root) == RootDisk.AfterAll(t0, rs) && Proper(tools, t, act)
    ensures In(After(tools, t, act), Root) == RootDisk.AfterAll(t0, rs + if act.RootAct? then [act.root] else [])
  {
    ActKeepsToItsArea(tools, t, act, Root);
    if act.RootAct? {
      assert (rs + [act.root])[..|rs|] == rs;
    } else {
      assert rs + [] == rs;
    }
  }

  lemma {:induction false} SourceStep(tools: Tools, t0: Tree, fs: seq<Fetching>, t: Tree, act: Act)
    requires In(t, Source) == Fetch.AfterAll(tools.digest, t0, SOURCE, fs) && Proper(tools, t, act)
    ensures In(After(tools, t, act), Source)
         == Fetch.AfterAll(tools.digest, t0, SOURCE, fs + if act.SourceAct? then [act.source] else [])
  {
    ActKeepsToItsArea(tools, t, act, Source);
    if act.SourceAct? {
      assert (fs + [act.source])[..|fs|] == fs;
    } else {
      assert fs + [] == fs;
    }
  }

  lemma {:induction false} LlvmStep(tools: Tools, t0: Tree, rs: seq<LlvmTree.LlvmRun>, t: Tree, act: Act)
    requires In(t, Llvm) == LlvmTree.AfterAll(tools, t0, rs) && Proper(tools, t, act)
    requires LlvmTree.ProperAll(tools, t0, rs)
    ensures var rs' := rs + if act.LlvmAct? then [act.llvm] else [];
            In(After(tools, t, act), Llvm) == LlvmTree.AfterAll(tools, t0, rs') && LlvmTree.ProperAll(tools, t0, rs')
  {
    ActKeepsToItsArea(tools, t, act, Llvm);
    if act.LlvmAct? {
      assert (rs + [act.llvm])[..|rs|] == rs;
    } else {
      assert rs + [] == rs;
    }
  }

  /** Each area is what its own steps made of it. */
  ghost predicate Alone(tools: Tools, t: Tree, t': Tree, acts: seq<Act>) {
    && In(t', Seed) == SeedKernel.AfterAll(tools, In(t, Seed), Seeds(acts))
    && In(t', Root) == RootDisk.AfterAll(In(t, Root), Roots(acts))
    && In(t', Source) == Fetch.AfterAll(tools.digest, In(t, Source), SOURCE, Sources(acts))
    && In(t', Llvm) == LlvmTree.AfterAll(tools, In(t, Llvm), Llvms(acts))
    && LlvmTree.ProperAll(tools, In(t, Llvm), Llvms(acts))
  }

  lemma {:induction false} ListsSnoc(acts: seq<Act>, act: Act)
    ensures Seeds(acts + [act]) == Seeds(acts) + if act.SeedAct? then [act.seed] else []
    ensures Roots(acts + [act]) == Roots(acts) + if act.RootAct? then [act.root] else []
    ensures Sources(acts + [act]) == Sources(acts) + if act.SourceAct? then [act.source] else []
    ensures Llvms(acts + [act]) == Llvms(acts) + if act.LlvmAct? then [act.llvm] else []
  {
    assert (acts + [act])[..|acts|] == acts;
  }

  lemma {:induction false} AloneStep(tools: Tools, t: Tree, t': Tree, acts: seq<Act>, act: Act)
    requires Alone(tools, t, t', acts) && Proper(tools, t', act)
    ensures Alone(tools, t, After(tools, t', act), acts + [act])
  {
    ListsSnoc(acts, act);
    SeedStep(tools, In(t, Seed), Seeds(acts), t', act);
    RootStep(tools, In(t, Root), Roots(acts), t', act);
    SourceStep(tools, In(t, Source), Sources(acts), t', act);
    LlvmStep(tools, In(t, Llvm), Llvms(acts), t', act);
  }

  lemma {:induction false} LastOff(acts: seq<Act>)
    requires acts != []
    ensures acts[..|acts| - 1] + [acts[|acts| - 1]] == acts
  {
  }

  /** Whatever order the steps of any number of runs come in, each area is as its own steps alone would
      have left it. */
  lemma {:induction false} EachOnItsOwn(tools: Tools, t: Tree, acts: seq<Act>)
    requires ProperAll(tools, t, acts)
    ensures Alone(tools, t, AfterAll(tools, t, acts), acts)
  {
    if acts != [] {
      var front, act := acts[..|acts| - 1], acts[|acts| - 1];
      LastOff(acts);
      EachOnItsOwn(tools, t, front);
      AloneStep(tools, t, AfterAll(tools, t, front), front, act);
    }
  }

  /* ----- a whole run ----- */

  /** What a step takes and comes to, as far as the order of steps goes. */
  datatype Moves = Moves(
    arm: (Act, nat) -> Act, size: (Tree, Act) -> nat, ok: (Tree, Act) -> bool, after: (Tree, Act) -> Tree)

  function MovesOf(tools: Tools): Moves {
    Moves((act: Act, fuel: nat) => WithFuel(act, fuel), (t, act) => |Plan(tools, t, act)|,
          (t, act) => Succeeds(tools, t, act), (t, act) => After(tools, t, act))
  }

  /** The first step of `todo` is done and succeeds. */
  predicate Passes(m: Moves, t: Tree, fuel: nat, act: Act) {
    m.size(t, m.arm(act, fuel)) <= fuel && m.ok(t, m.arm(act, fuel))
  }

  function Left(m: Moves, t: Tree, fuel: nat, act: Act): nat
    requires Passes(m, t, fuel, act)
  {
    fuel - m.size(t, m.arm(act, fuel))
  }

  function Done(m: Moves, t: Tree, fuel: nat, act: Act): Tree {
    m.after(t, m.arm(act, fuel))
  }

  /** The effect of doing `todo` in turn, up to the first error or the kill. */
  function Goes(m: Moves, t: Tree, fuel: nat, todo: seq<Act>): Tree
    decreases |todo|
  {
    if todo == [] then t
    else if Passes(m, t, fuel, todo[0]) then
      Goes(m, Done(m, t, fuel, todo[0]), Left(m, t, fuel, todo[0]), todo[1..])
    else Done(m, t, fuel, todo[0])
  }

  /** The steps such a run gets to, each with the operations it has left to live. */
  function Gone(m: Moves, t: Tree, fuel: nat, todo: seq<Act>): seq<Act>
    decreases |todo|
  {
    if todo == [] then []
    else if Passes(m, t, fuel, todo[0]) then
      [m.arm(todo[0], fuel)] + Gone(m, Done(m, t, fuel, todo[0]), Left(m, t, fuel, todo[0]), todo[1..])
    else [m.arm(todo[0], fuel)]
  }

  /** Every step of `todo` is done and succeeds. */
  predicate Finishes(m: Moves, t: Tree, fuel: nat, todo: seq<Act>)
    decreases |todo|
  {
    todo == []
    || (Passes(m, t, fuel, todo[0])
        && Finishes(m, Done(m, t, fuel, todo[0]), Left(m, t, fuel, todo[0]), todo[1..]))
  }

  function Past(m: Moves, t: Tree, acts: seq<Act>): Tree {
    if acts == [] then t else m.after(Past(m, t, acts[..|acts| - 1]), acts[|acts| - 1])
  }

  lemma {:induction false} PastCat(m: Moves, t: Tree, a: seq<Act>, b: seq<Act>)
    ensures Past(m, t, a + b) == Past(m, Past(m, t, a), b)
    decreases |b|
  {
    if b == [] {
      assert a + b == a;
    } else {
      assert (a + b)[..|a + b| - 1] == a + b[..|b| - 1] && (a + b)[|a + b| - 1] == b[|b| - 1];
      PastCat(m, t, a, b[..|b| - 1]);
    }
  }

  lemma {:induction false} PastFirst(m: Moves, t: Tree, act: Act, rest: seq<Act>)
    ensures Past(m, t, [act] + rest) == Past(m, m.after(t, act), rest)
  {
    assert [act][..0] == [] && [act][0] == act;
    PastCat(m, t, [act], rest);
  }

  lemma {:induction false} GoesIsPast(m: Moves, t: Tree, fuel: nat, todo: seq<Act>)
    ensures Goes(m, t, fuel, todo) == Past(m, t, Gone(m, t, fuel, todo))
    decreases |todo|
  {
    if todo != [] {
      var act, t1 := m.arm(todo[0], fuel), Done(m, t, fuel, todo[0]);
      if Passes(m, t, fuel, todo[0]) {
        GoesIsPast(m, t1, Left(m, t, fuel, todo[0]), todo[1..]);
        PastFirst(m, t, act, Gone(m, t1, Left(m, t, fuel, todo[0]), todo[1..]));
      } else {
        PastOne(m, t, act);
      }
    }
  }

  lemma {:induction false} PastOne(m: Moves, t: Tree, act: Act)
    ensures Past(m, t, [act]) == m.after(t, act)
  {
    assert [act][..0] == [] && [act][0] == act;
  }

  lemma {:induction false} GoesCons(m: Moves, t: Tree, fuel: nat, act: Act, rest: seq<Act>)
    ensures Goes(m, t, fuel, [act] + rest)
         == if Passes(m, t, fuel, act) then Goes(m, Done(m, t, fuel, act), Left(m, t, fuel, act), rest)
            else Done(m, t, fuel, act)
  {
    assert ([act] + rest)[0] == act && ([act] + rest)[1..] == rest;
  }

  lemma {:induction false} PastIsAfterAll(tools: Tools, t: Tree, acts: seq<Act>)
    ensures Past(MovesOf(tools), t, acts) == AfterAll(tools, t, acts)
  {
    if acts != [] { PastIsAfterAll(tools, t, acts[..|acts| - 1]); }
  }

  /** Runs one after the other are one history of steps. */
  lemma {:induction false} AfterAllCat(tools: Tools, t: Tree, a: seq<Act>, b: seq<Act>)
    ensures AfterAll(tools, t, a + b) == AfterAll(tools, AfterAll(tools, t, a), b)
  {
    PastCat(MovesOf(tools), t, a, b);
    PastIsAfterAll(tools, t, a + b);
    PastIsAfterAll(tools, t, a);
    PastIsAfterAll(tools, AfterAll(tools, t, a), b);
  }

  function Outcome(tools: Tools, t: Tree, fuel: nat, todo: seq<Act>): Tree {
    Goes(MovesOf(tools), t, fuel, todo)
  }

  function Steps(tools: Tools, t: Tree, fuel: nat, todo: seq<Act>): seq<Act> {
    Gone(MovesOf(tools), t, fuel, todo)
  }

  /** A run that is killed or fails anywhere is a history of steps like any other. */
  lemma {:induction false} OutcomeIsHistory(tools: Tools, t: Tree, fuel: nat, todo: seq<Act>)
    ensures Outcome(tools, t, fuel, todo) == AfterAll(tools, t, Steps(tools, t, fuel, todo))
  {
    GoesIsPast(MovesOf(tools), t, fuel, todo);
    PastIsAfterAll(tools, t, Steps(tools, t, fuel, todo));
  }

  /** What run asks for: its output path, what each step is to prepare, and the work that goes on
      elsewhere, staging before the source is fetched and the machines and the promotion at the end. */
  datatype Job = Job(
    out: string, seed: SeedKernel.SeedRun, root: RootDisk.RootRun, stage: seq<Op>, source: Fetching,
    llvm: LlvmTree.LlvmRun, rest: seq<Op>)

  predicate SelfHosts(t: Tree, out: string) {
    out in t && |t[out]| >= SeedKernel.MIN_KERNEL_BYTES
  }

  function Todo(t: Tree, job: Job): seq<Act> {
    (if SelfHosts(t, job.out) then [] else [SeedAct(job.seed)]) + AfterSeed(job)
  }

  function AfterSeed(job: Job): seq<Act> {
    [RootAct(job.root)] + ([OtherAct(job.stage, 0)] + AfterStaging(job))
  }

  function AfterStaging(job: Job): seq<Act> {
    [SourceAct(job.source)] + AfterSource(job)
  }

  function AfterSource(job: Job): seq<Act> {
    [LlvmAct(job.llvm)] + [OtherAct(job.rest, 0)]
  }

  lemma {:induction false} PlanIsFuelFree(tools: Tools, t: Tree, act: Act, fuel: nat)
    ensures Plan(tools, t, WithFuel(act, fuel)) == Plan(tools, t, act)
    ensures Succeeds(tools, t, WithFuel(act, fuel)) == Succeeds(tools, t, act)
  {
  }

  lemma {:induction false} AfterWithFuel(tools: Tools, t: Tree, act: Act, fuel: nat)
    ensures After(tools, t, WithFuel(act, fuel)) == Run(t, fuel, Plan(tools, t, act)).0
  {
    PlanIsFuelFree(tools, t, act, fuel);
  }

  lemma {:induction false} MoveIs(tools: Tools, t: Tree, fuel: nat, act: Act)
    ensures var m, n := MovesOf(tools), |Plan(tools, t, act)|;
            && (Passes(m, t, fuel, act) <==> n <= fuel && Succeeds(tools, t, act))
            && (Passes(m, t, fuel, act) ==> Left(m, t, fuel, act) == fuel - n)
            && Done(m, t, fuel, act) == Run(t, fuel, Plan(tools, t, act)).0
  {
    PlanIsFuelFree(tools, t, act, fuel);
    AfterWithFuel(tools, t, act, fuel);
  }

  /** The first step of a run done, `t1` and `fuel1` are what it left. */
  lemma {:induction false} Took(tools: Tools, t: Tree, fuel: nat, act: Act, rest: seq<Act>, t1: Tree, fuel1: nat)
    requires (t1, fuel1) == Run(t, fuel, Plan(tools, t, act))
    ensures Outcome(tools, t, fuel, [act] + rest)
         == if |Plan(tools, t, act)| <= fuel && Succeeds(tools, t, act) then Outcome(tools, t1, fuel1, rest) else t1
    ensures Completes(tools, t, fuel, [act] + rest) <==>
              |Plan(tools, t, act)| <= fuel && Succeeds(tools, t, act) && Completes(tools, t1, fuel1, rest)
  {
    var m := MovesOf(tools);
    MoveIs(tools, t, fuel, act);
    GoesCons(m, t, fuel, act, rest);
    FinishesCons(m, t, fuel, act, rest);
    if Passes(m, t, fuel, act) {
      FuelLeft(t, fuel, Plan(tools, t, act));
      assert Left(m, t, fuel, act) == fuel1 && Done(m, t, fuel, act) == t1;
    }
  }

  lemma {:induction false} FuelLeft(t: Tree, fuel: nat, plan: seq<Op>)
    requires |plan| <= fuel
    ensures Run(t, fuel, plan).1 == fuel - |plan|
  {
    RunIsPrefix(t, fuel, plan);
  }

  /** The run gets to the end of `todo` without an error or the kill. */
  predicate Completes(tools: Tools, t: Tree, fuel: nat, todo: seq<Act>) {
    Finishes(MovesOf(tools), t, fuel, todo)
  }

  lemma {:induction false} FinishesCons(m: Moves, t: Tree, fuel: nat, act: Act, rest: seq<Act>)
    ensures Finishes(m, t, fuel, [act] + rest)
       <==> Passes(m, t, fuel, act) && Finishes(m, Done(m, t, fuel, act), Left(m, t, fuel, act), rest)
  {
    assert ([act] + rest)[0] == act && ([act] + rest)[1..] == rest;
  }

  method DoAll(disk: Disk, ops: seq<Op>) returns (alive: bool)
    modifies disk
    ensures (disk.tree, disk.fuel) == Run(old(disk.tree), old(disk.fuel), ops)
    ensures alive <==> |ops| <= old(disk.fuel)
  {
    var left := ops;
    while left != []
      invariant Run(disk.tree, disk.fuel, left) == Run(old(disk.tree), old(disk.fuel), ops)
      invariant |left| <= disk.fuel <==> |ops| <= old(disk.fuel)
      decreases |left|
    {
      alive := disk.Do(left[0]);
      if !alive { return; }
      left := left[1..];
    }
    alive := true;
  }

  /** run, as far as the scratch directory goes: it does its steps in turn, up to the first error or the
      kill. */
  method Build(disk: Disk, tools: Tools, job: Job) returns (done: bool)
    modifies disk
    ensures disk.tree == Outcome(tools, old(disk.tree), old(disk.fuel), Todo(old(disk.tree), job))
    ensures done <==> Completes(tools, old(disk.tree), old(disk.fuel), Todo(old(disk.tree), job))
  {
    ghost var t, fuel := disk.tree, disk.fuel;
    var alive, path := SeedKernel.ResolveBootstrap(disk, job.out, tools, job.seed);
    if SelfHosts(t, job.out) {
      assert [] + AfterSeed(job) == AfterSeed(job);
    } else {
      Took(tools, t, fuel, SeedAct(job.seed), AfterSeed(job), disk.tree, disk.fuel);
    }
    if !alive || path.None? {
      return false;
    }
    done := BuildOnDisk(disk, tools, job);
  }

  method BuildOnDisk(disk: Disk, tools: Tools, job: Job) returns (done: bool)
    modifies disk
    ensures disk.tree == Outcome(tools, old(disk.tree), old(disk.fuel), AfterSeed(job))
    ensures done <==> Completes(tools, old(disk.tree), old(disk.fuel), AfterSeed(job))
  {
    ghost var t, fuel := disk.tree, disk.fuel;
    var alive, ok := RootDisk.PrepareRootfs(disk, job.root.key, job.root.build);
    Took(tools, t, fuel, RootAct(job.root), [OtherAct(job.stage, 0)] + AfterStaging(job), disk.tree, disk.fuel);
    if !alive || !ok {
      return false;
    }
    t, fuel := disk.tree, disk.fuel;
    alive := DoAll(disk, job.stage);
    Took(tools, t, fuel, OtherAct(job.stage, 0), AfterStaging(job), disk.tree, disk.fuel);
    if !alive {
      return false;
    }
    done := BuildStaged(disk, tools, job);
  }

  method BuildStaged(disk: Disk, tools: Tools, job: Job) returns (done: bool)
    modifies disk
    ensures disk.tree == Outcome(tools, old(disk.tree), old(disk.fuel), AfterStaging(job))
    ensures done <==> Completes(tools, old(disk.tree), old(disk.fuel), AfterStaging(job))
  {
    ghost var t, fuel := disk.tree, disk.fuel;
    var f := job.source;
    var alive, result := FetchFile(disk, tools.digest, CachePath(SOURCE, f.want), f.want, f.net);
    Took(tools, t, fuel, SourceAct(f), AfterSource(job), disk.tree, disk.fuel);
    if !alive || result != Fetched {
      return false;
    }
    done := BuildWithSource(disk, tools, job);
  }

  method BuildWithSource(disk: Disk, tools: Tools, job: Job) returns (done: bool)
    modifies disk
    ensures disk.tree == Outcome(tools, old(disk.tree), old(disk.fuel), AfterSource(job))
    ensures done <==> Completes(tools, old(disk.tree), old(disk.fuel), AfterSource(job))
  {
    ghost var t, fuel := disk.tree, disk.fuel;
    var alive, ok := LlvmTree.PrepareLlvm(disk, tools, job.llvm);
    Took(tools, t, fuel, LlvmAct(job.llvm), [OtherAct(job.rest, 0)], disk.tree, disk.fuel);
    if !alive || !ok {
      return false;
    }
    done := BuildAndPromote(disk, tools, job);
  }

  method BuildAndPromote(disk: Disk, tools: Tools, job: Job) returns (done: bool)
    modifies disk
    ensures disk.tree == Outcome(tools, old(disk.tree), old(disk.fuel), [OtherAct(job.rest, 0)])
    ensures done <==> Completes(tools, old(disk.tree), old(disk.fuel), [OtherAct(job.rest, 0)])
  {
    ghost var t, fuel := disk.tree, disk.fuel;
    done := DoAll(disk, job.rest);
    Took(tools, t, fuel, OtherAct(job.rest, 0), [], disk.tree, disk.fuel);
    assert [OtherAct(job.rest, 0)] + [] == [OtherAct(job.rest, 0)];
  }

  /* ----- what a finished run leaves ----- */

  /** What the step was for is there, and another run for the same would find it. */
  predicate Ready(tools: Tools, t: Tree, act: Act) {
    match act
    case SeedAct(_) => SeedKernel.SEED in t
    case RootAct(r) => RootDisk.Reuses(t, r.key)
    case SourceAct(f) =>
      CachePath(SOURCE, f.want) in t && Matches(tools.digest, t[CachePath(SOURCE, f.want)], f.want)
    case LlvmAct(r) => LlvmTree.Reuses(t, r.want)
    case OtherAct(_, _) => true
  }

  lemma {:induction false} StaysReady(tools: Tools, t: Tree, t': Tree, act: Act)
    requires In(t', ActArea(act)) == In(t, ActArea(act)) && Ready(tools, t, act)
    requires act.SourceAct? ==> IsPin(act.source.want)
    ensures Ready(tools, t', act)
  {
    match act {
      case SeedAct(_) =>
        assert AreaOf(SeedKernel.SEED) == Seed && SeedKernel.SEED in In(t, Seed);
      case RootAct(r) =>
        SameRoot(t, r.key);
        SameRoot(t', r.key);
      case SourceAct(f) =>
        SourceArea(f.want);
        assert CachePath(SOURCE, f.want) in In(t, Source);
      case LlvmAct(r) =>
        SameReuse(t, r.want);
        SameReuse(t', r.want);
      case OtherAct(_, _) =>
    }
  }

  lemma {:induction false} RootReady(t: Tree, r: RootDisk.RootRun)
    requires RootDisk.ValidRun(r) && |RootDisk.RootPlan(t, r.key, r.build)| <= r.fuel
    requires RootDisk.Reuses(t, r.key) || RootDisk.Builds(r.build)
    ensures RootDisk.Reuses(RootDisk.After(t, r), r.key)
  {
    if !RootDisk.Reuses(t, r.key) {
      RootDisk.AfterRun(t, r);
    }
  }

  lemma {:induction false} SeedReady(tools: Tools, t: Tree, r: SeedKernel.SeedRun)
    requires IsPin(r.want) && |SeedKernel.SeedPlan(tools, t, r)| <= r.fuel && SeedKernel.SeedReady(tools, t, r)
    ensures SeedKernel.SEED in SeedKernel.After(tools, t, r)
  {
    if !SeedKernel.Cached(t) {
      SeedKernel.SeedLands(tools, t, r);
    }
  }

  lemma {:induction false} SourceReady(tools: Tools, t: Tree, f: Fetching)
    requires IsPin(f.want)
    requires var plan := FetchPlan(tools.digest, t, CachePath(SOURCE, f.want), f.want, f.net); |plan| <= f.fuel
    requires FetchAnswer(tools.digest, t, CachePath(SOURCE, f.want), f.want, f.net) == Fetched
    ensures Ready(tools, After(tools, t, SourceAct(f)), SourceAct(f))
  {
    var plan := FetchPlan(tools.digest, t, CachePath(SOURCE, f.want), f.want, f.net);
    RunIsPrefix(t, f.fuel, plan);
    assert plan[..|plan|] == plan;
    FetchObtains(tools.digest, t, CachePath(SOURCE, f.want), f.want, f.net);
  }

  lemma {:induction false} LlvmReady(tools: Tools, t: Tree, r: LlvmTree.LlvmRun)
    requires LlvmTree.Proper(tools, t, r) && |LlvmTree.LlvmPlan(tools, t, r)| <= r.fuel
    requires LlvmTree.LlvmReady(tools, t, r)
    ensures LlvmTree.Reuses(LlvmTree.After(tools, t, r), r.want)
  {
    if !LlvmTree.Reuses(t, r.want) {
      LlvmTree.StampLands(tools, t, r);
    }
  }

  /** A step that is done and succeeds leaves what it was for. */
  lemma {:induction false} ReadyAfter(tools: Tools, t: Tree, act: Act)
    requires Proper(tools, t, act) && (act.RootAct? ==> RootDisk.ValidRun(act.root))
    requires |Plan(tools, t, act)| <= Fuel(act) && Succeeds(tools, t, act)
    ensures Ready(tools, After(tools, t, act), act)
  {
    match act {
      case SeedAct(r) => SeedReady(tools, t, r);
      case RootAct(r) => RootReady(t, r);
      case SourceAct(f) => SourceReady(tools, t, f);
      case LlvmAct(r) =>
        ProperBelow(tools, t, r);
        LlvmReady(tools, t, r);
      case OtherAct(_, _) =>
    }
  }

  lemma {:induction false} ContentsIn(tools: Tools, t: Tree, r: LlvmTree.LlvmRun)
    requires IsPin(r.want)
    ensures LlvmTree.Contents(tools, In(t, Llvm), r) == LlvmTree.Contents(tools, t, r)
  {
    FlatArea(LlvmTree.TARBALL, r.want, 'l', 'l');
    FetchIn(tools, t, LlvmTree.Dest(r.want), r.want, r.net, Llvm);
  }

  lemma {:induction false} ProperBelow(tools: Tools, t: Tree, r: LlvmTree.LlvmRun)
    requires LlvmTree.Proper(tools, In(t, Llvm), r)
    ensures LlvmTree.Proper(tools, t, r)
  {
    BelowIn(t);
    LlvmTree.SameEnumerated(r.order, In(t, Llvm), t);
    ContentsIn(tools, t, r);
  }

  /** Each step is proper where the run gets to it. */
  ghost predicate ProperRun(tools: Tools, t: Tree, fuel: nat, todo: seq<Act>)
    decreases |todo|
  {
    todo == []
    || (Proper(tools, t, WithFuel(todo[0], fuel))
        && (todo[0].RootAct? ==> RootDisk.ValidRun(todo[0].root))
        && var m := MovesOf(tools);
           Passes(m, t, fuel, todo[0]) ==>
             ProperRun(tools, Done(m, t, fuel, todo[0]), Left(m, t, fuel, todo[0]), todo[1..]))
  }

  lemma {:induction false} DoneLeaves(tools: Tools, t: Tree, fuel: nat, act: Act, b: Area)
    requires Proper(tools, t, WithFuel(act, fuel)) && ActArea(act) != b
    ensures In(Done(MovesOf(tools), t, fuel, act), b) == In(t, b)
  {
    ActKeepsToItsArea(tools, t, WithFuel(act, fuel), b);
  }

  lemma {:induction false} RestLeaves(tools: Tools, t: Tree, fuel: nat, todo: seq<Act>, b: Area)
    requires ProperRun(tools, t, fuel, todo) && forall act :: act in todo ==> ActArea(act) != b
    ensures In(Goes(MovesOf(tools), t, fuel, todo), b) == In(t, b)
    decreases |todo|
  {
    if todo != [] {
      var m := MovesOf(tools);
      assert todo[0] in todo && forall act :: act in todo[1..] ==> act in todo;
      DoneLeaves(tools, t, fuel, todo[0], b);
      if Passes(m, t, fuel, todo[0]) {
        RestLeaves(tools, Done(m, t, fuel, todo[0]), Left(m, t, fuel, todo[0]), todo[1..], b);
      }
    }
  }

  /** No two steps prepare the same artifact. */
  ghost predicate OneEach(todo: seq<Act>) {
    forall i, j :: 0 <= i < j < |todo| && ActArea(todo[i]) == ActArea(todo[j]) ==> todo[i].OtherAct?
  }

  /** A run that gets to its end leaves everything it was for, each for the very pin or key it was asked
      for: the next run with the same job finds it all. */
  lemma {:induction false} FinishedIsReady(tools: Tools, t: Tree, fuel: nat, todo: seq<Act>)
    requires Completes(tools, t, fuel, todo) && ProperRun(tools, t, fuel, todo) && OneEach(todo)
    ensures forall act :: act in todo ==> Ready(tools, Outcome(tools, t, fuel, todo), act)
    decreases |todo|
  {
    if todo != [] {
      var m, act := MovesOf(tools), WithFuel(todo[0], fuel);
      var t1, left := Done(m, t, fuel, todo[0]), Left(m, t, fuel, todo[0]);
      FirstStays(tools, t, fuel, todo);
      FinishedIsReady(tools, t1, left, todo[1..]);
      forall a | a in todo ensures Ready(tools, Outcome(tools, t, fuel, todo), a) {
        assert a == todo[0] || a in todo[1..];
      }
    }
  }

  lemma {:induction false} FirstStays(tools: Tools, t: Tree, fuel: nat, todo: seq<Act>)
    requires todo != []
    requires Completes(tools, t, fuel, todo) && ProperRun(tools, t, fuel, todo) && OneEach(todo)
    ensures Ready(tools, Outcome(tools, t, fuel, todo), todo[0])
  {
    var m, act := MovesOf(tools), WithFuel(todo[0], fuel);
    var t1, left := Done(m, t, fuel, todo[0]), Left(m, t, fuel, todo[0]);
    MoveIs(tools, t, fuel, todo[0]);
    PlanIsFuelFree(tools, t, todo[0], fuel);
    ReadyAfter(tools, t, act);
    if !todo[0].OtherAct? {
      assert forall a :: a in todo[1..] ==> exists j :: 1 <= j < |todo| && todo[j] == a;
      RestLeaves(tools, t1, left, todo[1..], ActArea(todo[0]));
      StaysReady(tools, t1, Outcome(tools, t, fuel, todo), todo[0]);
    }
  }

  lemma {:induction false} ListIs(job: Job)
    ensures AfterSeed(job) == [RootAct(job.root), OtherAct(job.stage, 0), SourceAct(job.source), LlvmAct(job.llvm),
                               OtherAct(job.rest, 0)]
  {
  }

  lemma {:induction false} ListHas(job: Job)
    ensures RootAct(job.root) in AfterSeed(job)
    ensures SourceAct(job.source) in AfterSeed(job) && LlvmAct(job.llvm) in AfterSeed(job)
  {
    ListIs(job);
    var all := AfterSeed(job);
    assert all[0] == RootAct(job.root) && all[2] == SourceAct(job.source) && all[3] == LlvmAct(job.llvm);
  }

  lemma {:induction false} ListOneEach(job: Job)
    ensures OneEach(AfterSeed(job)) && forall act :: act in AfterSeed(job) ==> ActArea(act) != Seed
  {
    ListIs(job);
  }

  lemma {:induction false} OneMore(act: Act, rest: seq<Act>)
    requires OneEach(rest) && forall a :: a in rest ==> ActArea(a) != ActArea(act)
    ensures OneEach([act] + rest)
  {
    var all := [act] + rest;
    forall i, j | 0 <= i < j < |all| && ActArea(all[i]) == ActArea(all[j]) ensures all[i].OtherAct? {
      assert all[j] == rest[j - 1] && all[j] in rest;
      assert i > 0 ==> all[i] == rest[i - 1];
    }
  }

  lemma {:induction false} TodoIs(t: Tree, job: Job)
    ensures var todo := Todo(t, job);
            && OneEach(todo)
            && RootAct(job.root) in todo && SourceAct(job.source) in todo && LlvmAct(job.llvm) in todo
            && (SelfHosts(t, job.out) || SeedAct(job.seed) in todo)
  {
    ListHas(job);
    ListOneEach(job);
    OneMore(SeedAct(job.seed), AfterSeed(job));
    assert [] + AfterSeed(job) == AfterSeed(job);
  }

  /** What it means that a run is done: the root disk is one the next run for the key would reuse, the
      source tarball has its pin's digest, the toolchain is stamped with its sha, and there was a kernel
      to boot from or is a seed. */
  lemma {:induction false} FinishedJob(tools: Tools, t: Tree, fuel: nat, job: Job)
    requires Completes(tools, t, fuel, Todo(t, job)) && ProperRun(tools, t, fuel, Todo(t, job))
    ensures var t' := Outcome(tools, t, fuel, Todo(t, job));
            && RootDisk.Reuses(t', job.root.key)
            && CachePath(SOURCE, job.source.want) in t'
            && Matches(tools.digest, t'[CachePath(SOURCE, job.source.want)], job.source.want)
            && LlvmTree.Reuses(t', job.llvm.want)
            && (SelfHosts(t, job.out) || SeedKernel.SEED in t')
  {
    TodoIs(t, job);
    FinishedIsReady(tools, t, fuel, Todo(t, job));
    var t' := Outcome(tools, t, fuel, Todo(t, job));
    assert Ready(tools, t', RootAct(job.root)) && Ready(tools, t', SourceAct(job.source));
    assert Ready(tools, t', LlvmAct(job.llvm));
    assert SelfHosts(t, job.out) || Ready(tools, t', SeedAct(job.seed));
  }

  /* ----- all invariants at once ----- */

  /** Before the first run: nothing at any artifact's path. */
  ghost predicate Fresh(t: Tree) {
    In(t, Seed) == In(t, Root) == In(t, Source) == In(t, Llvm) == map[]
  }

  lemma {:induction false} SameRoot(t: Tree, key: string)
    ensures RootDisk.Reuses(In(t, Root), key) == RootDisk.Reuses(t, key)
    ensures RootDisk.Reuses(t, key) ==> In(t, Root)[RootDisk.DISK] == t[RootDisk.DISK]
  {
    assert AreaOf(RootDisk.DISK) == Root && AreaOf(RootDisk.STAMP) == Root;
  }

  lemma {:induction false} RootHolds(t: Tree, rs: seq<RootDisk.RootRun>, key: string)
    requires In(t, Root) == RootDisk.AfterAll(map[], rs)
    requires forall r :: r in rs ==> RootDisk.ValidRun(r)
    ensures RootDisk.ReuseIs(t, rs, RootDisk.Reached(map[], rs), key)
  {
    RootDisk.DiskAndStamp(map[], rs);
    RootDisk.ReuseOfWritten(RootDisk.AfterAll(map[], rs), rs, RootDisk.Reached(map[], rs), key);
    SameRoot(t, key);
  }

  lemma {:induction false} SeedHolds(tools: Tools, t: Tree, rs: seq<SeedKernel.SeedRun>)
    requires In(t, Seed) == SeedKernel.AfterAll(tools, map[], rs)
    requires forall r :: r in rs ==> IsPin(r.want)
    ensures SeedKernel.Cached(t) ==>
              exists k: nat :: SeedKernel.CachedBy(tools, map[], rs, k)
                && SeedKernel.SeedOfRun(tools, t[SeedKernel.SEED], SeedKernel.AfterAll(tools, map[], rs[..k]), rs[k])
  {
    SameCached(t);
    if SeedKernel.Cached(t) {
      var k := SeedKernel.SeedIsFirst(tools, map[], rs);
    }
  }

  lemma {:induction false} SourceHolds(tools: Tools, t: Tree, fs: seq<Fetching>, pins: set<string>)
    requires In(t, Source) == Fetch.AfterAll(tools.digest, map[], SOURCE, fs)
    requires DistinctKeys(pins) && forall f :: f in fs ==> f.want in pins
    ensures AllVerified(tools.digest, t, SOURCE, pins)
  {
    HistoryVerified(tools.digest, map[], SOURCE, pins, fs);
    forall p | p in pins && CachePath(SOURCE, p) in t ensures Matches(tools.digest, t[CachePath(SOURCE, p)], p) {
      SourceArea(p);
      assert CachePath(SOURCE, p) in In(t, Source);
    }
  }

  lemma {:induction false} LlvmHolds(tools: Tools, t: Tree, rs: seq<LlvmTree.LlvmRun>, want: string)
    requires In(t, Llvm) == LlvmTree.AfterAll(tools, map[], rs) && LlvmTree.ProperAll(tools, map[], rs)
    ensures LlvmTree.Reuses(t, want) ==> LlvmTree.Vouches(tools, t, LlvmTree.Outcomes(tools, map[], rs), want)
  {
    LlvmBegins(LlvmTree.STAMP);
    assert LlvmTree.Reuses(In(t, Llvm), want) == LlvmTree.Reuses(t, want);
    BelowIn(t);
    if LlvmTree.Reuses(t, want) {
      LlvmTree.StampMeansComplete(tools, map[], rs, want);
      SameVouches(tools, In(t, Llvm), t, LlvmTree.Outcomes(tools, map[], rs), want);
    }
  }

  lemma {:induction false} SameVouches(tools: Tools, t: Tree, t': Tree, os: seq<LlvmTree.Outcome>, want: string)
    requires LlvmTree.Below(t') == LlvmTree.Below(t) && LlvmTree.Vouches(tools, t, os, want)
    ensures LlvmTree.Vouches(tools, t', os, want)
  {
  }

  /** What the next run may rely on, told from the history of each artifact's own steps: the reused disk
      is the last one renamed, the cached seed is the first one installed, whole and verified, each
      pinned source tarball has its digest, and a matching stamp stands over a complete toolchain unless
      a run since was killed clearing it. */
  ghost predicate Sound(tools: Tools, t: Tree, acts: seq<Act>, pins: set<string>) {
    && (forall key :: RootDisk.ReuseIs(t, Roots(acts), RootDisk.Reached(map[], Roots(acts)), key))
    && (SeedKernel.Cached(t) ==>
          exists k: nat :: SeedKernel.CachedBy(tools, map[], Seeds(acts), k)
            && SeedKernel.SeedOfRun(tools, t[SeedKernel.SEED],
                                    SeedKernel.AfterAll(tools, map[], Seeds(acts)[..k]), Seeds(acts)[k]))
    && AllVerified(tools.digest, t, SOURCE, pins)
    && (forall want :: LlvmTree.Reuses(t, want) ==>
          LlvmTree.Vouches(tools, t, LlvmTree.Outcomes(tools, map[], Llvms(acts)), want))
  }

  /** The four artifacts share one directory and one process, and hold all their promises at once:
      after every history of runs, each made of all the steps and stopped anywhere. */
  lemma {:induction false} AllHoldAtOnce(tools: Tools, t: Tree, acts: seq<Act>, pins: set<string>)
    requires Fresh(t) && ProperAll(tools, t, acts)
    requires forall r :: r in Roots(acts) ==> RootDisk.ValidRun(r)
    requires DistinctKeys(pins) && forall f :: f in Sources(acts) ==> f.want in pins
    ensures Sound(tools, AfterAll(tools, t, acts), acts, pins)
  {
    var t' := AfterAll(tools, t, acts);
    EachOnItsOwn(tools, t, acts);
    SeedPins(tools, t, acts);
    SeedHolds(tools, t', Seeds(acts));
    SourceHolds(tools, t', Sources(acts), pins);
    forall key ensures RootDisk.ReuseIs(t', Roots(acts), RootDisk.Reached(map[], Roots(acts)), key) {
      RootHolds(t', Roots(acts), key);
    }
    forall want | LlvmTree.Reuses(t', want)
      ensures LlvmTree.Vouches(tools, t', LlvmTree.Outcomes(tools, map[], Llvms(acts)), want)
    {
      LlvmHolds(tools, t', Llvms(acts), want);
    }
  }

  lemma {:induction false} SeedPins(tools: Tools, t: Tree, acts: seq<Act>)
    requires ProperAll(tools, t, acts)
    ensures forall r :: r in Seeds(acts) ==> IsPin(r.want)
  {
    if acts != [] {
      SeedPins(tools, t, acts[..|acts| - 1]);
    }
  }

  /* ----- histories of whole runs ----- */

  /** One run of the program: its job, and how many operations it lives. */
  datatype Session = Session(job: Job, fuel: nat)

  function AfterSessions(tools: Tools, t: Tree, runs: seq<Session>): Tree {
    if runs == [] then t
    else
      var t1, last := AfterSessions(tools, t, runs[..|runs| - 1]), runs[|runs| - 1];
      Outcome(tools, t1, last.fuel, Todo(t1, last.job))
  }

  /** The steps all the runs get to. */
  function AllSteps(tools: Tools, t: Tree, runs: seq<Session>): seq<Act> {
    if runs == [] then []
    else
      var t1, last := AfterSessions(tools, t, runs[..|runs| - 1]), runs[|runs| - 1];
      AllSteps(tools, t, runs[..|runs| - 1]) + Steps(tools, t1, last.fuel, Todo(t1, last.job))
  }

  lemma {:induction false} SessionsAreHistory(tools: Tools, t: Tree, runs: seq<Session>)
    ensures AfterSessions(tools, t, runs) == AfterAll(tools, t, AllSteps(tools, t, runs))
  {
    if runs != [] {
      var front, last := runs[..|runs| - 1], runs[|runs| - 1];
      var t1 := AfterSessions(tools, t, front);
      SessionsAreHistory(tools, t, front);
      OutcomeIsHistory(tools, t1, last.fuel, Todo(t1, last.job));
      AfterAllCat(tools, t, AllSteps(tools, t, front), Steps(tools, t1, last.fuel, Todo(t1, last.job)));
    }
  }

  /** The same for whole runs, one after the other, each with its own job and killed anywhere or not at
      all. */
  lemma {:induction false} SessionsAreSound(tools: Tools, t: Tree, runs: seq<Session>, pins: set<string>)
    requires Fresh(t) && ProperAll(tools, t, AllSteps(tools, t, runs))
    requires forall r :: r in Roots(AllSteps(tools, t, runs)) ==> RootDisk.ValidRun(r)
    requires DistinctKeys(pins) && forall f :: f in Sources(AllSteps(tools, t, runs)) ==> f.want in pins
    ensures Sound(tools, AfterSessions(tools, t, runs), AllSteps(tools, t, runs), pins)
  {
    SessionsAreHistory(tools, t, runs);
    AllHoldAtOnce(tools, t, AllSteps(tools, t, runs), pins);
  }
}
