/** A file system reduced to file contents, driven one operation at a time, with a kill possible
    before any of them. */
module Files {

  type Tree = map<string, string>

  /** The operations the build's artifact store performs. Rename and Write replace a file at once;
      Create truncates, and Append adds what one write added. */
  datatype Op =
    | Create(path: string)
    | Append(path: string, data: string)
    | Remove(path: string)
    | Rename(src: string, dst: string)
    | Write(path: string, data: string)

  function Step(t: Tree, op: Op): Tree {
    match op
    case Create(p) => t[p := ""]
    case Append(p, data) => if p in t then t[p := t[p] + data] else t
    case Remove(p) => t - {p}
    case Rename(p, q) => if p in t then (t - {p})[q := t[p]] else t
    case Write(p, data) => t[p := data]
  }

  function Exec(t: Tree, ops: seq<Op>): Tree
    decreases |ops|
  {
    if ops == [] then t else Exec(Step(t, ops[0]), ops[1..])
  }

  lemma {:induction false} ExecCat(t: Tree, a: seq<Op>, b: seq<Op>)
    ensures Exec(t, a + b) == Exec(Exec(t, a), b)
    decreases |a|
  {
    if a == [] {
      assert a + b == b;
    } else {
      assert (a + b)[1..] == a[1..] + b;
      ExecCat(Step(t, a[0]), a[1..], b);
    }
  }

  lemma {:induction false} ExecOne(t: Tree, op: Op)
    ensures Exec(t, [op]) == Step(t, op)
  {
    assert Exec(t, [op]) == Exec(Step(t, op), []);
  }

  /** The file is there or not, and with the same contents, in both trees. */
  predicate SameAt(t: Tree, t': Tree, path: string) {
    (path in t' <==> path in t) && (path in t ==> t'[path] == t[path])
  }

  /** The operation leaves `path` as it is. */
  predicate Spares(op: Op, path: string) {
    match op
    case Rename(p, q) => p != path && q != path
    case _ => op.path != path
  }

  lemma {:induction false} ExecSpares(t: Tree, ops: seq<Op>, path: string)
    requires forall op :: op in ops ==> Spares(op, path)
    ensures SameAt(t, Exec(t, ops), path)
    decreases |ops|
  {
    if ops != [] {
      assert ops[0] in ops;
      ExecSpares(Step(t, ops[0]), ops[1..], path);
    }
  }

  function Min(a: nat, b: nat): nat {
    if a < b then a else b
  }

  /** A program that would perform `plan`, killed once it has performed `fuel` operations: what it
      leaves behind, and how much fuel is left over. */
  function Run(t: Tree, fuel: nat, plan: seq<Op>): (Tree, nat)
    decreases |plan|
  {
    if plan == [] || fuel == 0 then (t, fuel) else Run(Step(t, plan[0]), fuel - 1, plan[1..])
  }

  /** A kill leaves the effect of a prefix of the plan. */
  lemma {:induction false} RunIsPrefix(t: Tree, fuel: nat, plan: seq<Op>)
    ensures Run(t, fuel, plan) == (Exec(t, plan[..Min(fuel, |plan|)]), fuel - Min(fuel, |plan|))
    decreases |plan|
  {
    if plan != [] && fuel > 0 {
      RunIsPrefix(Step(t, plan[0]), fuel - 1, plan[1..]);
      var n := Min(fuel, |plan|);
      assert plan[..n][1..] == plan[1..][..n - 1];
    }
  }

  /** One plan after another: the second runs on what the first left, unless the kill came first. */
  lemma {:induction false} RunCat(t: Tree, fuel: nat, p: seq<Op>, q: seq<Op>)
    ensures Run(t, fuel, p + q)
         == if |p| <= fuel then Run(Run(t, fuel, p).0, Run(t, fuel, p).1, q) else Run(t, fuel, p)
    ensures |p| <= fuel ==> Run(t, fuel, p).1 == fuel - |p|
    ensures |p| > fuel ==> Run(t, fuel, p).1 == 0
    decreases |p|
  {
    if p == [] {
      assert p + q == q;
    } else if fuel > 0 {
      assert (p + q)[1..] == p[1..] + q;
      RunCat(Step(t, p[0]), fuel - 1, p[1..], q);
    }
  }

  /** A kill leaves a prefix of the first plan, or all of it and a prefix of the second. */
  lemma {:induction false} RunParts(t: Tree, n: nat, p: seq<Op>, q: seq<Op>)
    ensures n < |p| ==> Run(t, n, p + q).0 == Exec(t, p[..n])
    ensures n >= |p| ==> Run(t, n, p + q).0 == Exec(t, p + q[..Min(n - |p|, |q|)])
  {
    RunIsPrefix(t, n, p + q);
    if n < |p| {
      assert (p + q)[..n] == p[..n];
    } else {
      var m := Min(n - |p|, |q|);
      assert (p + q)[..|p| + m] == p + q[..m];
    }
  }

  /** One plan, and another after it if the first went well. */
  lemma {:induction false} TwoParts(t: Tree, fuel: nat, p: seq<Op>, more: bool, q: seq<Op>) returns (t1: Tree)
    ensures t1 == Run(t, fuel, p).0
    ensures Run(t, fuel, p + if more then q else []).0
         == if more && |p| <= fuel then Run(t1, fuel - |p|, q).0 else t1
  {
    t1 := Run(t, fuel, p).0;
    RunCat(t, fuel, p, q);
    assert p + [] == p;
  }

  class Disk {
    var tree: Tree
    /** How many more operations the running process performs before it is killed. */
    var fuel: nat

    constructor (tree: Tree, fuel: nat)
      ensures this.tree == tree && this.fuel == fuel
    {
      this.tree, this.fuel := tree, fuel;
    }

    /** One operation, unless the kill comes first. */
    method Do(op: Op) returns (alive: bool)
      modifies this
      ensures alive <==> old(fuel) >= 1
      ensures alive ==> tree == Step(old(tree), op) && fuel == old(fuel) - 1
      ensures !alive ==> tree == old(tree) && fuel == 0
    {
      alive := fuel > 0;
      if alive {
        tree := match op
          case Create(p) => tree[p := ""]
          case Append(p, data) => if p in tree then tree[p := tree[p] + data] else tree
          case Remove(p) => tree - {p}
          case Rename(p, q) => if p in tree then (tree - {p})[q := tree[p]] else tree
          case Write(p, data) => tree[p := data];
        fuel := fuel - 1;
      }
    }
  }
}
