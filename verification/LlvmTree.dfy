/** prepareLLVM: the extracted toolchain, whose stamp lives inside the tree it vouches for
    (cmd/ossein-kernel). */
module LlvmTree {
  import opened Wrappers
  import opened Text
  import opened LlvmPaths
  import opened Files
  import opened Download
  import opened Fetch
  import opened Archives

  const DIR := "llvm"
  const ROOT := "llvm/"
  const STAMP := "llvm/.ossein-llvm-sha"
  const TARBALL := "llvm.tar.xz"

  /* ----- the archive ----- */

  function Placed(e: Entry): Placement {
    LlvmEntryTarget(e.name, DIR, ROOT)
  }

  function NodeOps(e: Entry, target: string): seq<Op> {
    match e
    case Regular(_, data) => [Create(target)] + Fill(target, data)
    case Link(_, to) => if LinkAccepted(ROOT, target, to) then [Remove(target), Write(target, to)] else []
    case _ => []
  }

  function EntryOps(e: Entry): seq<Op> {
    if Placed(e).At? then NodeOps(e, Placed(e).target) else []
  }

  predicate EntryOk(e: Entry) {
    !Placed(e).Escapes? && (e.Link? && Placed(e).At? ==> LinkAccepted(ROOT, Placed(e).target, e.to))
  }

  function EntriesOps(es: seq<Entry>): seq<Op> {
    if es == [] then [] else EntryOps(es[0]) + (if EntryOk(es[0]) then EntriesOps(es[1..]) else [])
  }

  predicate AllOk(es: seq<Entry>) {
    forall e :: e in es ==> EntryOk(e)
  }

  predicate ExtractOk(a: Archive) {
    a.readable && AllOk(a.entries)
  }

  lemma {:induction false} AllOkHead(es: seq<Entry>)
    requires es != []
    ensures AllOk(es) <==> EntryOk(es[0]) && AllOk(es[1..])
  {
    assert es == [es[0]] + es[1..];
  }

  /** What one entry brings to `path`. */
  function Node(e: Entry): Option<string> {
    match e
    case Regular(_, data) => Some(data)
    case Link(_, to) => Some(to)
    case _ => None
  }

  function Brings(e: Entry, path: string): Option<string> {
    if Placed(e) == At(path) then Node(e) else None
  }

  /** What the archive leaves at `path`: the last entry that brings something decides. */
  function Final(es: seq<Entry>, path: string): Option<string> {
    if es == [] then None
    else if Final(es[1..], path).Some? then Final(es[1..], path)
    else Brings(es[0], path)
  }

  /** `path` holds what was brought, or what it held before. */
  ghost predicate Left(t: Tree, t': Tree, path: string, brought: Option<string>) {
    if brought.None? then SameAt(t, t', path) else path in t' && t'[path] == brought.value
  }

  lemma {:induction false} LinkWritten(t: Tree, target: string, to: string)
    ensures Exec(t, [Remove(target), Write(target, to)]) == t[target := to]
  {
    assert [Remove(target), Write(target, to)] == [Remove(target)] + [Write(target, to)];
    ExecCat(t, [Remove(target)], [Write(target, to)]);
    ExecOne(t, Remove(target));
    ExecOne(t - {target}, Write(target, to));
  }

  lemma {:induction false} NodeLeaves(t: Tree, e: Entry, target: string, path: string)
    requires e.Link? ==> LinkAccepted(ROOT, target, e.to)
    ensures Left(t, Exec(t, NodeOps(e, target)), path, if path == target then Node(e) else None)
  {
    match e {
      case Regular(_, data) => FileWritten(t, target, data);
      case Link(_, to) => LinkWritten(t, target, to);
      case _ =>
    }
  }

  lemma {:induction false} EntryLeaves(t: Tree, e: Entry, path: string)
    requires EntryOk(e)
    ensures Left(t, Exec(t, EntryOps(e)), path, Brings(e, path))
  {
    if Placed(e).At? {
      NodeLeaves(t, e, Placed(e).target, path);
    }
  }

  /** Extraction, read off the archive: at every path, what its last entry says, and what no entry
      brings is as it was. */
  lemma {:induction false} ExtractedIs(t: Tree, es: seq<Entry>, path: string)
    requires AllOk(es)
    ensures Left(t, Exec(t, EntriesOps(es)), path, Final(es, path))
    decreases |es|
  {
    if es != [] {
      assert es[0] in es;
      EntryLeaves(t, es[0], path);
      ExecCat(t, EntryOps(es[0]), EntriesOps(es[1..]));
      ExtractedIs(Exec(t, EntryOps(es[0])), es[1..], path);
    }
  }

  /** Every operation changes one file, below the root. */
  ghost predicate WritesBelow(ops: seq<Op>) {
    forall op :: op in ops ==> !op.Rename? && HasPrefix(op.path, ROOT)
  }

  lemma {:induction false} NodeBelow(e: Entry, target: string)
    ensures forall op :: op in NodeOps(e, target) ==> !op.Rename? && op.path == target
  {
    if e.Regular? {
      FillBelow(target, e.data);
    }
  }

  lemma {:induction false} EntryBelow(e: Entry)
    ensures forall op :: op in EntryOps(e) ==>
              Placed(e).At? && !op.Rename? && op.path == Placed(e).target && HasPrefix(op.path, ROOT)
  {
    if Placed(e).At? {
      NodeBelow(e, Placed(e).target);
    }
  }

  lemma {:induction false} EntriesBelow(es: seq<Entry>)
    ensures WritesBelow(EntriesOps(es))
    ensures (forall e :: e in es ==> Placed(e) != At(STAMP)) ==>
              forall op :: op in EntriesOps(es) ==> op.path != STAMP
  {
    if es != [] {
      EntriesBelow(es[1..]);
      EntryBelow(es[0]);
      assert es[0] in es && forall e :: e in es[1..] ==> e in es;
    }
  }

  /* ----- one run ----- */

  /** One run of the program: the sha it wants, the network it meets, the order in which clearing
      takes the directory's entries, and when it is killed. */
  datatype LlvmRun = LlvmRun(want: string, net: nat -> Attempt, order: seq<string>, fuel: nat)

  predicate Reuses(t: Tree, want: string) {
    STAMP in t && TrimSpace(t[STAMP]) == want
  }

  function RemoveOps(order: seq<string>): seq<Op> {
    if order == [] then [] else [Remove(order[0])] + RemoveOps(order[1..])
  }

  function Dest(want: string): string {
    CachePath(TARBALL, want)
  }

  function ExtractOps(a: Archive, want: string): seq<Op> {
    EntriesOps(a.entries) + (if ExtractOk(a) then [Write(STAMP, want)] else [])
  }

  function FetchOps(tools: Tools, t: Tree, r: LlvmRun): seq<Op> {
    FetchPlan(tools.digest, t, Dest(r.want), r.want, r.net)
  }

  predicate FetchOk(tools: Tools, t: Tree, r: LlvmRun) {
    FetchAnswer(tools.digest, t, Dest(r.want), r.want, r.net) == Fetched
  }

  function Contents(tools: Tools, t: Tree, r: LlvmRun): Archive {
    tools.decode(Obtained(tools.digest, t, Dest(r.want), r.want, r.net))
  }

  /** What follows the download. */
  function TreeOps(tools: Tools, t: Tree, r: LlvmRun): seq<Op> {
    RemoveOps(r.order) + ExtractOps(Contents(tools, t, r), r.want)
  }

  function LlvmPlan(tools: Tools, t: Tree, r: LlvmRun): seq<Op> {
    if Reuses(t, r.want) then []
    else FetchOps(tools, t, r) + (if FetchOk(tools, t, r) then TreeOps(tools, t, r) else [])
  }

  /** os.RemoveAll, in the order it happens to take the entries. */
  method Clear(disk: Disk, order: seq<string>) returns (alive: bool)
    modifies disk
    ensures (disk.tree, disk.fuel) == Run(old(disk.tree), old(disk.fuel), RemoveOps(order))
    ensures alive <==> |RemoveOps(order)| <= old(disk.fuel)
  {
    var left := order;
    while left != []
      invariant Run(disk.tree, disk.fuel, RemoveOps(left)) == Run(old(disk.tree), old(disk.fuel), RemoveOps(order))
      invariant |RemoveOps(left)| <= disk.fuel <==> |RemoveOps(order)| <= old(disk.fuel)
      decreases |left|
    {
      alive := disk.Do(Remove(left[0]));
      if !alive { return; }
      left := left[1..];
    }
    alive := true;
  }

  /** writeLLVMSymlink, once the link is accepted. */
  method WriteLink(disk: Disk, target: string, to: string) returns (alive: bool)
    modifies disk
    ensures (disk.tree, disk.fuel) == Run(old(disk.tree), old(disk.fuel), [Remove(target), Write(target, to)])
    ensures alive <==> 2 <= old(disk.fuel)
  {
    assert [Remove(target), Write(target, to)] == [Remove(target)] + [Write(target, to)];
    RunCat(disk.tree, disk.fuel, [Remove(target)], [Write(target, to)]);
    alive := disk.Do(Remove(target));
    if !alive { return; }
    alive := disk.Do(Write(target, to));
  }

  /** llvmEntryTarget and writeLLVMEntry for one entry. */
  method ExtractEntry(disk: Disk, e: Entry) returns (alive: bool, ok: bool)
    modifies disk
    ensures (disk.tree, disk.fuel) == Run(old(disk.tree), old(disk.fuel), EntryOps(e))
    ensures alive <==> |EntryOps(e)| <= old(disk.fuel)
    ensures ok == EntryOk(e)
  {
    alive, ok := true, true;
    match LlvmEntryTarget(e.name, DIR, ROOT) {
      case Skipped =>
      case Escapes => ok := false;
      case At(target) =>
        match e {
          case Regular(_, data) => alive := WriteFile(disk, target, data);
          case Link(_, to) =>
            if LinkAccepted(ROOT, target, to) {
              alive := WriteLink(disk, target, to);
            } else {
              ok := false;
            }
          case Directory(_) =>
          case Other(_) =>
        }
    }
  }

  /** extractLLVM: entry by entry, up to the first that escapes. */
  method Extract(disk: Disk, a: Archive) returns (alive: bool, ok: bool)
    modifies disk
    ensures (disk.tree, disk.fuel) == Run(old(disk.tree), old(disk.fuel), EntriesOps(a.entries))
    ensures alive <==> |EntriesOps(a.entries)| <= old(disk.fuel)
    ensures alive ==> ok == ExtractOk(a)
  {
    var left := a.entries;
    while left != []
      invariant Run(disk.tree, disk.fuel, EntriesOps(left))
             == Run(old(disk.tree), old(disk.fuel), EntriesOps(a.entries))
      invariant |EntriesOps(left)| <= disk.fuel <==> |EntriesOps(a.entries)| <= old(disk.fuel)
      invariant AllOk(a.entries) <==> AllOk(left)
      decreases |left|
    {
      var e := left[0];
      ghost var rest := if EntryOk(e) then EntriesOps(left[1..]) else [];
      RunCat(disk.tree, disk.fuel, EntryOps(e), rest);
      assert EntriesOps(left) == EntryOps(e) + rest;
      AllOkHead(left);
      alive, ok := ExtractEntry(disk, e);
      if !alive || !ok { return; }
      left := left[1..];
    }
    return true, a.readable;
  }

  /** A run that is not killed ends up with the toolchain. */
  predicate LlvmReady(tools: Tools, t: Tree, r: LlvmRun) {
    Reuses(t, r.want) || (FetchOk(tools, t, r) && ExtractOk(Contents(tools, t, r)))
  }

  /** prepareLLVM. `r.order` is the order clearing happens to take, `r.fuel` is the disk's. */
  method PrepareLlvm(disk: Disk, tools: Tools, r: LlvmRun) returns (alive: bool, ready: bool)
    modifies disk
    ensures var plan := LlvmPlan(tools, old(disk.tree), r);
            && (disk.tree, disk.fuel) == Run(old(disk.tree), old(disk.fuel), plan)
            && (alive <==> |plan| <= old(disk.fuel))
    ensures alive ==> ready == LlvmReady(tools, old(disk.tree), r)
  {
    if STAMP in disk.tree && TrimSpace(disk.tree[STAMP]) == r.want {
      return true, true;
    }
    ghost var t, fuel := disk.tree, disk.fuel;
    var tarball := CachePath(TARBALL, r.want);
    RunIsPrefix(t, fuel, FetchOps(tools, t, r));
    assert FetchOps(tools, t, r)[..|FetchOps(tools, t, r)|] == FetchOps(tools, t, r);
    var result;
    alive, result := FetchFile(disk, tools.digest, tarball, r.want, r.net);
    if !alive || result != Fetched {
      ready := false;
      RunCat(t, fuel, FetchOps(tools, t, r), if FetchOk(tools, t, r) then TreeOps(tools, t, r) else []);
      return;
    }
    FetchObtains(tools.digest, t, tarball, r.want, r.net);
    RunCat(t, fuel, FetchOps(tools, t, r), TreeOps(tools, t, r));
    alive, ready := Replace(disk, tools.decode(disk.tree[tarball]), r);
  }

  /** The part of prepareLLVM that touches the directory. */
  method Replace(disk: Disk, a: Archive, r: LlvmRun) returns (alive: bool, ready: bool)
    modifies disk
    ensures var plan := RemoveOps(r.order) + ExtractOps(a, r.want);
            && (disk.tree, disk.fuel) == Run(old(disk.tree), old(disk.fuel), plan)
            && (alive <==> |plan| <= old(disk.fuel))
    ensures alive ==> ready == ExtractOk(a)
  {
    RunCat(disk.tree, disk.fuel, RemoveOps(r.order), ExtractOps(a, r.want));
    ready := false;
    alive := Clear(disk, r.order);
    if !alive { return; }
    ghost var stamp := if ExtractOk(a) then [Write(STAMP, r.want)] else [];
    RunCat(disk.tree, disk.fuel, EntriesOps(a.entries), stamp);
    alive, ready := Extract(disk, a);
    if !alive || !ready { return; }
    alive := disk.Do(Write(STAMP, r.want));
  }

  /* ----- what a run leaves in the directory ----- */

  function Below(t: Tree): Tree {
    map p | p in t && HasPrefix(p, ROOT) :: t[p]
  }

  /** `order` lists what is below the root, each path once. */
  ghost predicate Enumerates(order: seq<string>, t: Tree) {
    && (forall p :: p in order <==> p in Below(t))
    && forall i, j :: 0 <= i < j < |order| ==> order[i] != order[j]
  }

  /** The complete tree: an empty directory after the whole archive and the stamp. */
  function Complete(a: Archive, want: string): Tree {
    Exec(map[], EntriesOps(a.entries) + [Write(STAMP, want)])
  }

  /** How far a run got with the directory: not there yet; killed while clearing, with the stamp
      still to go; past the stamp's removal, and killed or failed since; or done. */
  datatype Phase = Untouched | Clearing | Cleared | Stamped

  /** `n` operations after the download. */
  function PhaseAfter(order: seq<string>, a: Archive, want: string, n: nat): Phase {
    if n == 0 then Untouched
    else if n < |order| && STAMP in order[n..] then Clearing
    else if ExtractOk(a) && |order| + |ExtractOps(a, want)| <= n then Stamped
    else Cleared
  }

  /** The run gets as far as clearing the directory. */
  predicate Begins(tools: Tools, t: Tree, r: LlvmRun) {
    !Reuses(t, r.want) && FetchOk(tools, t, r) && |FetchOps(tools, t, r)| <= r.fuel
  }

  function PhaseOf(tools: Tools, t: Tree, r: LlvmRun): Phase {
    if Begins(tools, t, r) then
      PhaseAfter(r.order, Contents(tools, t, r), r.want, r.fuel - |FetchOps(tools, t, r)|)
    else Untouched
  }

  function After(tools: Tools, t: Tree, r: LlvmRun): Tree {
    Run(t, r.fuel, LlvmPlan(tools, t, r)).0
  }

  /** The sha is one, clearing takes what is there, and the archive brings no stamp of its own. */
  ghost predicate Proper(tools: Tools, t: Tree, r: LlvmRun) {
    && IsPin(r.want) && TrimSpace(r.want) == r.want
    && Enumerates(r.order, t)
    && forall e :: e in Contents(tools, t, r).entries ==> Placed(e) != At(STAMP)
  }

  function Elements(s: seq<string>): set<string> {
    set p | p in s
  }

  lemma {:induction false} RemoveOpsAre(order: seq<string>)
    ensures |RemoveOps(order)| == |order|
    ensures forall i :: 0 <= i < |order| ==> RemoveOps(order)[i] == Remove(order[i])
  {
    if order != [] { RemoveOpsAre(order[1..]); }
  }

  lemma {:induction false} Removed(t: Tree, order: seq<string>, n: nat)
    requires n <= |order|
    ensures n <= |RemoveOps(order)| && Exec(t, RemoveOps(order)[..n]) == t - Elements(order[..n])
    decreases n
  {
    RemoveOpsAre(order);
    if n > 0 {
      assert RemoveOps(order)[..n][1..] == RemoveOps(order[1..])[..n - 1];
      Removed(t - {order[0]}, order[1..], n - 1);
      assert order[..n] == [order[0]] + order[1..][..n - 1];
    }
  }

  lemma {:induction false} BelowStep(t: Tree, op: Op)
    requires !op.Rename? && HasPrefix(op.path, ROOT)
    ensures Below(Step(t, op)) == Step(Below(t), op)
  {
  }

  lemma {:induction false} BelowExec(t: Tree, ops: seq<Op>)
    requires WritesBelow(ops)
    ensures Below(Exec(t, ops)) == Exec(Below(t), ops)
    decreases |ops|
  {
    if ops != [] {
      assert ops[0] in ops;
      BelowStep(t, ops[0]);
      BelowExec(Step(t, ops[0]), ops[1..]);
    }
  }

  /** The download works beside the directory, not in it. */
  lemma {:induction false} DestBeside(want: string)
    requires IsPin(want)
    ensures !HasPrefix(Dest(want), ROOT) && !HasPrefix(Dest(want) + PARTIAL_SUFFIX, ROOT)
  {
    BareTarball();
    CachePathFlat(TARBALL, want);
    KeyedAt(want);
    BesideAt(KeyedName(TARBALL, want));
  }

  lemma {:induction false} BareTarball()
    ensures '/' !in TARBALL
  {
  }

  lemma {:induction false} BesideAt(name: string)
    requires |name| > 4 && name[4] == '-'
    ensures !HasPrefix(name, ROOT) && !HasPrefix(name + PARTIAL_SUFFIX, ROOT)
  {
    PrefixChar(name, ROOT, 4);
    PrefixChar(name + PARTIAL_SUFFIX, ROOT, 4);
  }

  lemma {:induction false} KeyedAt(want: string)
    requires |want| >= CACHE_KEY_LEN
    ensures |KeyedName(TARBALL, want)| > 4 && KeyedName(TARBALL, want)[4] == '-'
  {
    assert TARBALL == "llvm" + ['.'] + "tar.xz";
    IndexOfAt("llvm", '.', "tar.xz");
    KeyedDash(TARBALL, want);
  }

  lemma {:induction false} SameBelow(t: Tree, t': Tree)
    requires forall p :: HasPrefix(p, ROOT) ==> SameAt(t, t', p)
    ensures Below(t') == Below(t)
  {
    forall p ensures p in Below(t') <==> p in Below(t) {
      if HasPrefix(p, ROOT) { assert SameAt(t, t', p); }
    }
  }

  lemma {:induction false} FetchBeside(tools: Tools, t: Tree, r: LlvmRun, fuel: nat)
    requires IsPin(r.want)
    ensures Below(Run(t, fuel, FetchOps(tools, t, r)).0) == Below(t)
  {
    DestBeside(r.want);
    FetchAtomic(tools.digest, t, Dest(r.want), r.want, r.net, fuel);
    SameBelow(t, Run(t, fuel, FetchOps(tools, t, r)).0);
  }

  /** A run killed while clearing. */
  lemma {:induction false} WhileClearing(t: Tree, order: seq<string>, n: nat)
    requires Enumerates(order, t) && n <= |order|
    ensures n <= |RemoveOps(order)|
    ensures var t' := Exec(t, RemoveOps(order)[..n]);
            && Below(t') == Below(t) - Elements(order[..n])
            && (STAMP in t' <==> STAMP in order[n..])
            && (n == |order| ==> Below(t') == map[])
  {
    Removed(t, order, n);
    StampLeft(t, order, n);
    if n == |order| {
      WholePrefix(order);
      assert forall p :: p in Below(t - Elements(order)) ==> p in Below(t) && p !in order;
    }
  }

  lemma {:induction false} StampLeft(t: Tree, order: seq<string>, n: nat)
    requires Enumerates(order, t) && n <= |order|
    ensures STAMP in t - Elements(order[..n]) <==> STAMP in order[n..]
  {
    assert STAMP in Below(t) <==> STAMP in order;
    assert forall i, j :: 0 <= i < n <= j < |order| ==> order[i] != order[j];
    assert order == order[..n] + order[n..];
  }

  /** A run past clearing, `n` operations into the extraction. */
  lemma {:induction false} WhileExtracting(t: Tree, a: Archive, want: string, n: nat)
    requires Below(t) == map[] && n <= |ExtractOps(a, want)|
    requires forall e :: e in a.entries ==> Placed(e) != At(STAMP)
    ensures var t' := Exec(t, ExtractOps(a, want)[..n]);
            if ExtractOk(a) && n == |ExtractOps(a, want)| then Below(t') == Complete(a, want) else STAMP !in t'
  {
    var ops := ExtractOps(a, want);
    EntriesBelow(a.entries);
    if ExtractOk(a) && n == |ops| {
      assert ops[..n] == ops;
      BelowExec(t, ops);
    } else {
      assert ops[..n] == EntriesOps(a.entries)[..n];
      ExecSpares(t, ops[..n], STAMP);
      assert STAMP !in Below(t);
    }
  }

  /** What a run leaves below the root, by how far it got; `n` as in PhaseAfter. */
  ghost predicate Leaves(t: Tree, t': Tree, p: Phase, order: seq<string>, n: int, full: Tree) {
    match p
    case Untouched => Below(t') == Below(t)
    case Clearing =>
      0 < n <= |order| && STAMP in Below(t') && Below(t') == Below(t) - Elements(order[..n])
    case Cleared => STAMP !in t'
    case Stamped => Below(t') == full
  }

  /** A run is a download, beside the directory, and if that succeeds a replacement of it. */
  lemma {:induction false} AfterIs(tools: Tools, t: Tree, r: LlvmRun) returns (t1: Tree)
    requires IsPin(r.want)
    ensures Below(t1) == Below(t)
    ensures Begins(tools, t, r) ==>
              After(tools, t, r)
              == Run(t1, r.fuel - |FetchOps(tools, t, r)|,
                     RemoveOps(r.order) + ExtractOps(Contents(tools, t, r), r.want)).0
    ensures !Begins(tools, t, r) ==> After(tools, t, r) == t1
  {
    if Reuses(t, r.want) {
      t1 := t;
    } else {
      FetchBeside(tools, t, r, r.fuel);
      t1 := TwoParts(t, r.fuel, FetchOps(tools, t, r), FetchOk(tools, t, r), TreeOps(tools, t, r));
    }
  }

  /** Clearing is only ever caught with the stamp of another sha still in place. */
  lemma {:induction false} ClearingIsForeign(tools: Tools, t: Tree, r: LlvmRun)
    ensures PhaseOf(tools, t, r) == Clearing ==> !Reuses(t, r.want)
  {
  }

  lemma {:induction false} AfterRun(tools: Tools, t: Tree, r: LlvmRun)
    requires Proper(tools, t, r)
    ensures Leaves(t, After(tools, t, r), PhaseOf(tools, t, r), r.order, r.fuel - |FetchOps(tools, t, r)|,
                   Complete(Contents(tools, t, r), r.want))
  {
    var t1 := AfterIs(tools, t, r);
    if Begins(tools, t, r) {
      var n := r.fuel - |FetchOps(tools, t, r)|;
      BegunPhase(tools, t, r);
      AfterBegins(t, t1, After(tools, t, r), Contents(tools, t, r), r, n, PhaseOf(tools, t, r));
    } else {
      NeverBegan(t, After(tools, t, r), r.order, r.fuel - |FetchOps(tools, t, r)|,
                 Complete(Contents(tools, t, r), r.want));
    }
  }

  lemma {:induction false} BegunPhase(tools: Tools, t: Tree, r: LlvmRun)
    requires Begins(tools, t, r)
    ensures PhaseOf(tools, t, r)
         == PhaseAfter(r.order, Contents(tools, t, r), r.want, r.fuel - |FetchOps(tools, t, r)|)
  {
  }

  lemma {:induction false} NeverBegan(t: Tree, t': Tree, order: seq<string>, n: int, full: Tree)
    requires Below(t') == Below(t)
    ensures Leaves(t, t', Untouched, order, n, full)
  {
  }

  lemma {:induction false} AfterBegins(t: Tree, t1: Tree, t': Tree, a: Archive, r: LlvmRun, n: nat, p: Phase)
    requires Enumerates(r.order, t) && Below(t1) == Below(t)
    requires forall e :: e in a.entries ==> Placed(e) != At(STAMP)
    requires t' == Run(t1, n, RemoveOps(r.order) + ExtractOps(a, r.want)).0 && p == PhaseAfter(r.order, a, r.want, n)
    ensures Leaves(t, t', p, r.order, n, Complete(a, r.want))
  {
    SameEnumerated(r.order, t, t1);
    AfterFetch(t1, a, r, n);
    SameLeaves(t1, t, t', p, r.order, n, Complete(a, r.want));
  }

  lemma {:induction false} SameLeaves(t1: Tree, t: Tree, t': Tree, p: Phase, order: seq<string>, n: int, full: Tree)
    requires Below(t1) == Below(t) && Leaves(t1, t', p, order, n, full)
    ensures Leaves(t, t', p, order, n, full)
  {
  }

  lemma {:induction false} SameEnumerated(order: seq<string>, t: Tree, t1: Tree)
    requires Enumerates(order, t) && Below(t1) == Below(t)
    ensures Enumerates(order, t1)
  {
  }

  /** Killed `n` operations after the download. */
  lemma {:induction false} AfterFetch(t: Tree, a: Archive, r: LlvmRun, n: nat)
    requires Enumerates(r.order, t)
    requires forall e :: e in a.entries ==> Placed(e) != At(STAMP)
    ensures Leaves(t, Run(t, n, RemoveOps(r.order) + ExtractOps(a, r.want)).0, PhaseAfter(r.order, a, r.want, n),
                   r.order, n, Complete(a, r.want))
  {
    var t' := Run(t, n, RemoveOps(r.order) + ExtractOps(a, r.want)).0;
    RemoveOpsAre(r.order);
    RunParts(t, n, RemoveOps(r.order), ExtractOps(a, r.want));
    if n < |r.order| {
      InClearing(t, t', a, r, n);
    } else {
      OutOfClearing(t, t', a, r, n, Min(n - |r.order|, |ExtractOps(a, r.want)|));
    }
  }

  lemma {:induction false} InClearing(t: Tree, t': Tree, a: Archive, r: LlvmRun, n: nat)
    requires Enumerates(r.order, t) && n < |r.order| == |RemoveOps(r.order)|
    requires t' == Exec(t, RemoveOps(r.order)[..n])
    ensures Leaves(t, t', PhaseAfter(r.order, a, r.want, n), r.order, n, Complete(a, r.want))
  {
    WhileClearing(t, r.order, n);
  }

  lemma {:induction false} OutOfClearing(t: Tree, t': Tree, a: Archive, r: LlvmRun, n: nat, m: nat)
    requires Enumerates(r.order, t) && |r.order| <= n && m == Min(n - |r.order|, |ExtractOps(a, r.want)|)
    requires t' == Exec(t, RemoveOps(r.order) + ExtractOps(a, r.want)[..m])
    requires forall e :: e in a.entries ==> Placed(e) != At(STAMP)
    ensures Leaves(t, t', PhaseAfter(r.order, a, r.want, n), r.order, n, Complete(a, r.want))
  {
    PastClearing(t, a, r, m);
    if n == 0 {
      assert ExtractOps(a, r.want)[..m] == [] && RemoveOps(r.order) == [];
      assert t' == t;
    }
  }

  lemma {:induction false} PastClearing(t: Tree, a: Archive, r: LlvmRun, m: nat)
    requires Enumerates(r.order, t) && m <= |ExtractOps(a, r.want)|
    requires forall e :: e in a.entries ==> Placed(e) != At(STAMP)
    ensures var t' := Exec(t, RemoveOps(r.order) + ExtractOps(a, r.want)[..m]);
            if ExtractOk(a) && m == |ExtractOps(a, r.want)| then Below(t') == Complete(a, r.want) else STAMP !in t'
  {
    var clear := RemoveOps(r.order);
    RemoveOpsAre(r.order);
    WhileClearing(t, r.order, |r.order|);
    assert clear[..|clear|] == clear;
    ExecCat(t, clear, ExtractOps(a, r.want)[..m]);
    WhileExtracting(Exec(t, clear), a, r.want, m);
  }

  /** A run that is not killed and succeeds leaves its stamp. */
  lemma {:induction false} StampLands(tools: Tools, t: Tree, r: LlvmRun)
    requires Proper(tools, t, r) && !Reuses(t, r.want) && LlvmReady(tools, t, r)
    requires |LlvmPlan(tools, t, r)| <= r.fuel
    ensures Reuses(After(tools, t, r), r.want)
  {
    PlanLength(tools, t, r);
    AfterRun(tools, t, r);
    CompleteHasStamp(Contents(tools, t, r), r.want);
    assert STAMP in Below(After(tools, t, r));
  }

  lemma {:induction false} PlanLength(tools: Tools, t: Tree, r: LlvmRun)
    requires !Reuses(t, r.want) && LlvmReady(tools, t, r) && |LlvmPlan(tools, t, r)| <= r.fuel
    ensures PhaseOf(tools, t, r) == Stamped
  {
    RemoveOpsAre(r.order);
  }

  /* ----- histories ----- */

  /** One run as history keeps it: how far it got, and the complete tree it was out to leave. */
  datatype Outcome = Outcome(want: string, phase: Phase, complete: Tree)

  function OutcomeOf(tools: Tools, t: Tree, r: LlvmRun): Outcome {
    Outcome(r.want, PhaseOf(tools, t, r), Complete(Contents(tools, t, r), r.want))
  }

  function AfterAll(tools: Tools, t: Tree, rs: seq<LlvmRun>): Tree {
    if rs == [] then t else After(tools, AfterAll(tools, t, rs[..|rs| - 1]), rs[|rs| - 1])
  }

  function Outcomes(tools: Tools, t: Tree, rs: seq<LlvmRun>): (os: seq<Outcome>)
    ensures |os| == |rs|
  {
    if rs == [] then []
    else Outcomes(tools, t, rs[..|rs| - 1]) + [OutcomeOf(tools, AfterAll(tools, t, rs[..|rs| - 1]), rs[|rs| - 1])]
  }

  ghost predicate ProperAll(tools: Tools, t: Tree, rs: seq<LlvmRun>) {
    rs == []
    || (ProperAll(tools, t, rs[..|rs| - 1]) && Proper(tools, AfterAll(tools, t, rs[..|rs| - 1]), rs[|rs| - 1]))
  }

  /** One past the last run that wrote its stamp; 0 for none. */
  function LastStamped(os: seq<Outcome>): (n: nat)
    ensures n <= |os|
    ensures n > 0 ==> os[n - 1].phase == Stamped
    ensures forall i :: n <= i < |os| ==> os[i].phase != Stamped
  {
    if os == [] then 0 else if os[|os| - 1].phase == Stamped then |os| else LastStamped(os[..|os| - 1])
  }

  /** No run since the last stamp got so far. */
  predicate NoneSince(os: seq<Outcome>, phase: Phase) {
    forall i :: LastStamped(os) <= i < |os| ==> os[i].phase != phase
  }

  /** Every run since the last stamp that was killed clearing wanted another sha. */
  ghost predicate ClearedByOthers(os: seq<Outcome>, want: string) {
    forall i :: LastStamped(os) <= i < |os| && os[i].phase == Clearing ==> os[i].want != want
  }

  lemma {:induction false} OthersSnoc(os: seq<Outcome>, o: Outcome, want: string)
    requires o.phase == Stamped || ClearedByOthers(os, want)
    requires o.phase == Clearing ==> o.want != want
    ensures ClearedByOthers(os + [o], want)
  {
    SinceSnoc(os, o, Clearing);
    if o.phase != Stamped {
      assert forall i :: 0 <= i < |os| ==> (os + [o])[i] == os[i];
    }
  }

  /** The directory, told from the history: there is a stamp exactly if one was written and no run
      since has got past its removal; it is then that of the last run to write one, over a part of
      that run's complete tree, and over all of it exactly if no run since was killed clearing. */
  ghost predicate Told(t: Tree, os: seq<Outcome>) {
    var k := LastStamped(os);
    && (STAMP in t <==> k > 0 && NoneSince(os, Cleared))
    && (STAMP in t ==>
          && t[STAMP] == os[k - 1].want
          && (forall p :: p in Below(t) ==> p in os[k - 1].complete && Below(t)[p] == os[k - 1].complete[p])
          && (Below(t) == os[k - 1].complete <==> NoneSince(os, Clearing))
          && ClearedByOthers(os, TrimSpace(t[STAMP])))
  }

  lemma {:induction false} CompleteHasStamp(a: Archive, want: string)
    ensures STAMP in Complete(a, want) && Complete(a, want)[STAMP] == want
  {
    ExecCat(map[], EntriesOps(a.entries), [Write(STAMP, want)]);
    ExecOne(Exec(map[], EntriesOps(a.entries)), Write(STAMP, want));
  }

  lemma {:induction false} SinceSnoc(os: seq<Outcome>, o: Outcome, phase: Phase)
    ensures o.phase == Stamped ==> LastStamped(os + [o]) == |os| + 1 && NoneSince(os + [o], phase)
    ensures o.phase != Stamped ==> LastStamped(os + [o]) == LastStamped(os)
    ensures o.phase != Stamped ==> (NoneSince(os + [o], phase) <==> NoneSince(os, phase) && o.phase != phase)
  {
    var all := os + [o];
    assert all[..|os|] == os && all[|os|] == o;
    if o.phase != Stamped && NoneSince(all, phase) {
      forall i | LastStamped(os) <= i < |os| ensures os[i].phase != phase {
        assert all[i] == os[i];
      }
    }
  }

  /** The step of history, told of the directory alone: `o` took `t` to `t'`, and `gone` is what it
      removed when it was killed clearing. */
  lemma {:induction false} ToldNext(t: Tree, t': Tree, os: seq<Outcome>, o: Outcome, gone: set<string>)
    requires Told(t, os)
    requires o.phase == Untouched ==> Below(t') == Below(t)
    requires o.phase == Clearing ==>
               Below(t') == Below(t) - gone && STAMP in Below(t') && exists g :: g in gone && g in Below(t)
    requires o.phase == Clearing && STAMP in t ==> TrimSpace(t[STAMP]) != o.want
    requires o.phase == Cleared ==> STAMP !in t'
    requires o.phase == Stamped ==> Below(t') == o.complete && STAMP in o.complete && o.complete[STAMP] == o.want
    ensures Told(t', os + [o])
  {
    SinceSnoc(os, o, Clearing);
    SinceSnoc(os, o, Cleared);
    assert HasPrefix(STAMP, ROOT);
    assert STAMP in t' <==> STAMP in Below(t');
    assert STAMP in t <==> STAMP in Below(t);
    if o.phase == Clearing {
      var g :| g in gone && g in Below(t);
      assert g !in Below(t');
    }
    if STAMP in t' {
      assert o.phase == Untouched || o.phase == Clearing ==> t'[STAMP] == Below(t')[STAMP] == t[STAMP];
      OthersSnoc(os, o, TrimSpace(t'[STAMP]));
    }
  }

  lemma {:induction false} ToldStep(tools: Tools, t: Tree, os: seq<Outcome>, r: LlvmRun)
    requires Proper(tools, t, r) && Told(t, os)
    ensures Told(After(tools, t, r), os + [OutcomeOf(tools, t, r)])
  {
    AfterRun(tools, t, r);
    ClearingIsForeign(tools, t, r);
    CompleteHasStamp(Contents(tools, t, r), r.want);
    var gone := {};
    if PhaseOf(tools, t, r) == Clearing {
      gone := Elements(r.order[..r.fuel - |FetchOps(tools, t, r)|]);
      assert r.order[0] in r.order && r.order[0] in gone;
    }
    ToldNext(t, After(tools, t, r), os, OutcomeOf(tools, t, r), gone);
  }

  lemma {:induction false} HistorySnoc(tools: Tools, t: Tree, rs: seq<LlvmRun>)
    requires rs != []
    ensures var front, r := rs[..|rs| - 1], rs[|rs| - 1];
            && AfterAll(tools, t, rs) == After(tools, AfterAll(tools, t, front), r)
            && Outcomes(tools, t, rs) == Outcomes(tools, t, front) + [OutcomeOf(tools, AfterAll(tools, t, front), r)]
  {
  }

  lemma {:induction false} HistoryTold(tools: Tools, t: Tree, rs: seq<LlvmRun>)
    requires Below(t) == map[] && ProperAll(tools, t, rs)
    ensures Told(AfterAll(tools, t, rs), Outcomes(tools, t, rs))
  {
    if rs == [] {
      assert STAMP !in Below(t);
      assert HasPrefix(STAMP, ROOT);
    } else {
      var front := rs[..|rs| - 1];
      HistoryTold(tools, t, front);
      ToldStep(tools, AfterAll(tools, t, front), Outcomes(tools, t, front), rs[|rs| - 1]);
      HistorySnoc(tools, t, rs);
    }
  }

  /** The archive was read to its end, no entry that is to be placed escapes, and every link that is
      placed is one to accept. */
  ghost predicate Whole(a: Archive) {
    && a.readable
    && forall e :: e in a.entries ==>
         var p := LlvmEntryTarget(e.name, DIR, ROOT);
         !p.Escapes? && (p.At? && e.Link? ==> LinkAccepted(ROOT, p.target, e.to))
  }

  /** A tarball with the wanted digest, whole, and extracted completely. */
  ghost predicate CompleteFor(tools: Tools, tree: Tree, want: string) {
    exists data :: Matches(tools.digest, data, want) && Whole(tools.decode(data))
      && tree == Complete(tools.decode(data), want)
  }

  lemma {:induction false} EntryOkIff(e: Entry)
    ensures EntryOk(e) <==>
              var p := LlvmEntryTarget(e.name, DIR, ROOT);
              !p.Escapes? && (p.At? && e.Link? ==> LinkAccepted(ROOT, p.target, e.to))
  {
  }

  lemma {:induction false} WholeIff(a: Archive)
    ensures ExtractOk(a) <==> Whole(a)
  {
    forall e | e in a.entries
      ensures EntryOk(e) <==>
                var p := LlvmEntryTarget(e.name, DIR, ROOT);
                !p.Escapes? && (p.At? && e.Link? ==> LinkAccepted(ROOT, p.target, e.to))
    {
      EntryOkIff(e);
    }
  }

  /** When a run that reuses nothing and is not killed ends up with the toolchain, exactly: its
      download succeeds and the tarball is whole. */
  lemma {:induction false} FreshlyReadyIff(tools: Tools, t: Tree, r: LlvmRun)
    requires !Reuses(t, r.want)
    ensures LlvmReady(tools, t, r) <==>
              FetchAnswer(tools.digest, t, Dest(r.want), r.want, r.net) == Fetched && Whole(Contents(tools, t, r))
  {
    WholeIff(Contents(tools, t, r));
  }

  ghost predicate Holds(t: Tree, path: string, content: Option<string>) {
    if content.None? then path !in t else path in t && t[path] == content.value
  }

  lemma {:induction false} StampedLast(a: Archive, want: string)
    ensures Complete(a, want) == Exec(map[], EntriesOps(a.entries))[STAMP := want]
  {
    ExecCat(map[], EntriesOps(a.entries), [Write(STAMP, want)]);
    ExecOne(Exec(map[], EntriesOps(a.entries)), Write(STAMP, want));
  }

  lemma {:induction false} FromNothing(es: seq<Entry>, path: string)
    requires AllOk(es)
    ensures Holds(Exec(map[], EntriesOps(es)), path, Final(es, path))
  {
    ExtractedIs(map[], es, path);
  }

  /** The complete tree, path by path: the stamp is the sha, and everywhere else stands what the last
      entry placed there brought. */
  lemma {:induction false} CompleteIs(a: Archive, want: string, path: string)
    requires Whole(a)
    ensures Holds(Complete(a, want), path, if path == STAMP then Some(want) else Final(a.entries, path))
  {
    WholeIff(a);
    StampedLast(a, want);
    FromNothing(a.entries, path);
  }

  /** The entry that decides: the last of those that bring something to the path. */
  lemma {:induction false} FinalIff(es: seq<Entry>, path: string, data: string)
    ensures Final(es, path) == Some(data) <==> exists i :: Deciding(es, path, data, i)
  {
    if es != [] {
      FinalIff(es[1..], path, data);
      FinalNone(es[1..], path);
      LastFirst(es, path, data);
    }
  }

  lemma {:induction false} FinalNone(es: seq<Entry>, path: string)
    ensures Final(es, path) == None <==> NoneBrings(es, path)
  {
    if es != [] {
      FinalNone(es[1..], path);
      NoneFirst(es, path);
    }
  }

  ghost predicate NoneBrings(es: seq<Entry>, path: string) {
    forall j :: 0 <= j < |es| ==> Brings(es[j], path) == None
  }

  lemma {:induction false} NoneFirst(es: seq<Entry>, path: string)
    requires es != []
    ensures NoneBrings(es, path) <==> Brings(es[0], path) == None && NoneBrings(es[1..], path)
  {
    assert forall j :: 1 <= j < |es| ==> es[j] == es[1..][j - 1];
    if NoneBrings(es, path) {
      assert forall j :: 0 <= j < |es[1..]| ==> es[1..][j] == es[j + 1];
    }
  }

  ghost predicate Deciding(es: seq<Entry>, path: string, data: string, i: int) {
    && 0 <= i < |es| && Brings(es[i], path) == Some(data)
    && forall j :: i < j < |es| ==> Brings(es[j], path) == None
  }

  lemma {:induction false} LastFirst(es: seq<Entry>, path: string, data: string)
    requires es != []
    ensures (exists i :: Deciding(es, path, data, i)) <==>
              || (exists i :: Deciding(es[1..], path, data, i))
              || (NoneBrings(es[1..], path)
                  && Brings(es[0], path) == Some(data))
  {
    assert forall j :: 1 <= j < |es| ==> es[j] == es[1..][j - 1];
    if i :| Deciding(es, path, data, i) {
      if i > 0 {
        assert Deciding(es[1..], path, data, i - 1);
      } else {
        assert forall j :: 0 <= j < |es[1..]| ==> es[1..][j] == es[j + 1];
      }
    }
    if i :| Deciding(es[1..], path, data, i) {
      assert Deciding(es, path, data, i + 1);
    }
    if NoneBrings(es[1..], path) && Brings(es[0], path) == Some(data) {
      assert Deciding(es, path, data, 0);
    }
  }

  /** What every stamped run was out to leave is the whole of a verified tarball. */
  ghost predicate StampedVerified(tools: Tools, os: seq<Outcome>) {
    forall o :: o in os && o.phase == Stamped ==> TrimSpace(o.want) == o.want && CompleteFor(tools, o.complete, o.want)
  }

  lemma {:induction false} OutcomeVerified(tools: Tools, t: Tree, r: LlvmRun)
    requires Proper(tools, t, r) && PhaseOf(tools, t, r) == Stamped
    ensures CompleteFor(tools, OutcomeOf(tools, t, r).complete, r.want)
  {
    FetchObtains(tools.digest, t, Dest(r.want), r.want, r.net);
    WholeIff(Contents(tools, t, r));
  }

  lemma {:induction false} HistoryVerified(tools: Tools, t: Tree, rs: seq<LlvmRun>)
    requires ProperAll(tools, t, rs)
    ensures StampedVerified(tools, Outcomes(tools, t, rs))
  {
    if rs != [] {
      var front, r := rs[..|rs| - 1], rs[|rs| - 1];
      HistorySnoc(tools, t, rs);
      HistoryVerified(tools, t, front);
      if PhaseOf(tools, AfterAll(tools, t, front), r) == Stamped {
        OutcomeVerified(tools, AfterAll(tools, t, front), r);
      }
    }
  }

  /** The stamp vouches for the complete extraction of a tarball with the wanted digest, and for all
      of it still being there exactly if no later run was killed clearing. */
  ghost predicate Vouches(tools: Tools, t: Tree, os: seq<Outcome>, want: string) {
    var k := LastStamped(os);
    && k > 0 && os[k - 1].want == want && CompleteFor(tools, os[k - 1].complete, want)
    && (Below(t) == os[k - 1].complete <==> NoneSince(os, Clearing))
    && ClearedByOthers(os, want)
  }

  lemma {:induction false} ToldVouches(tools: Tools, t: Tree, os: seq<Outcome>, want: string)
    requires Told(t, os) && Reuses(t, want) && StampedVerified(tools, os)
    ensures Vouches(tools, t, os, want)
  {
    var o := os[LastStamped(os) - 1];
    assert o in os && o.phase == Stamped;
  }

  /** From an empty directory, whatever the history of shas, downloads, clearing orders and kills:
      a stamp that equals a sha stands over the complete extraction of a tarball with that digest,
      unless a later run for another sha was killed while clearing the directory, which is exactly
      when something of the tree is missing. */
  lemma {:induction false} StampMeansComplete(tools: Tools, t: Tree, rs: seq<LlvmRun>, want: string)
    requires Below(t) == map[] && ProperAll(tools, t, rs)
    requires Reuses(AfterAll(tools, t, rs), want)
    ensures Vouches(tools, AfterAll(tools, t, rs), Outcomes(tools, t, rs), want)
  {
    HistoryTold(tools, t, rs);
    HistoryVerified(tools, t, rs);
    ToldVouches(tools, AfterAll(tools, t, rs), Outcomes(tools, t, rs), want);
  }

  /** The exception is real: over a complete tree for one sha, a run for another that is killed
      after its first removal leaves a tree that is reused for the first sha and lacks a file. */
  lemma {:induction false} TornTreeReused(tools: Tools, t: Tree, sha: string, r: LlvmRun)
    requires Proper(tools, t, r) && Reuses(t, sha) && r.want != sha && FetchOk(tools, t, r)
    requires |r.order| > 1 && r.order[0] != STAMP && r.fuel == |FetchOps(tools, t, r)| + 1
    ensures Reuses(After(tools, t, r), sha)
    ensures r.order[0] in Below(t) && r.order[0] !in After(tools, t, r)
  {
    OneRemoved(t, r.order);
    AfterRun(tools, t, r);
    assert PhaseOf(tools, t, r) == Clearing;
    OneGone(t, After(tools, t, r), r.order);
  }

  lemma {:induction false} OneRemoved(t: Tree, order: seq<string>)
    requires Enumerates(order, t) && STAMP in t && |order| > 1 && order[0] != STAMP
    ensures STAMP in order[1..] && order[0] in Below(t)
  {
    assert order[0] in order && order == [order[0]] + order[1..];
    assert STAMP in Below(t);
  }

  lemma {:induction false} OneGone(t: Tree, t': Tree, order: seq<string>)
    requires Enumerates(order, t) && STAMP in t && |order| > 1 && order[0] != STAMP
    requires Below(t') == Below(t) - Elements(order[..1])
    ensures STAMP in t' && t'[STAMP] == t[STAMP] && order[0] in Below(t) && order[0] !in t'
  {
    OneRemoved(t, order);
    assert order[..1] == [order[0]];
    assert Elements(order[..1]) == {order[0]};
    assert STAMP in Below(t') && Below(t')[STAMP] == t'[STAMP] && Below(t)[STAMP] == t[STAMP];
    assert order[0] !in Below(t') && HasPrefix(order[0], ROOT);
  }
}
