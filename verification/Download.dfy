/** Downloads in cmd/ossein-kernel: one GET copied into a temporary file, and up to three of them. */
module Download {
  import opened Files

  /** How a read of the body ended. A read can deliver bytes and an end or an error together. */
  datatype End = More | Eof | Failed

  datatype Read = Read(data: string, end: End, writeOk: bool)

  /** One GET: refused or failed before a byte of body, or a body read piece by piece. A body whose
      reads run out without an end is one the idle watchdog gave up on. `cancelled` tells whether
      the run's context is cancelled by the time the attempt is judged. */
  datatype Attempt = Attempt(answered: bool, body: seq<Read>, closeOk: bool, cancelled: bool)

  const DOWNLOAD_ATTEMPTS := 3

  /** The write one read leads to: none for an empty one. */
  function WriteOps(tmp: string, data: string): seq<Op> {
    if data == "" then [] else [Append(tmp, data)]
  }

  /** The writes copyWithProgress makes, and whether it reached the end of the body. */
  function CopyOps(tmp: string, body: seq<Read>): seq<Op> {
    if body == [] || (body[0].data != "" && !body[0].writeOk) then []
    else WriteOps(tmp, body[0].data) + (if body[0].end == More then CopyOps(tmp, body[1..]) else [])
  }

  predicate CopyOk(body: seq<Read>) {
    body != [] && (body[0].data == "" || body[0].writeOk)
    && (body[0].end == Eof || (body[0].end == More && CopyOk(body[1..])))
  }

  /** Everything read up to and including the read that ended the body. */
  function Received(body: seq<Read>): string {
    if body == [] then ""
    else body[0].data + (if body[0].end == More then Received(body[1..]) else "")
  }

  function AttemptOps(tmp: string, a: Attempt): seq<Op> {
    if !a.answered then [] else [Create(tmp)] + CopyOps(tmp, a.body)
  }

  predicate AttemptOk(a: Attempt) {
    a.answered && CopyOk(a.body) && a.closeOk
  }

  /** Whether the loop goes round again after attempt number `n`, counted from 1. */
  predicate Retries(a: Attempt, n: nat) {
    !AttemptOk(a) && !a.cancelled && n < DOWNLOAD_ATTEMPTS
  }

  function DownloadOps(tmp: string, net: nat -> Attempt, n: nat): seq<Op>
    requires n <= DOWNLOAD_ATTEMPTS
    decreases DOWNLOAD_ATTEMPTS - n
  {
    AttemptOps(tmp, net(n)) + (if Retries(net(n), n) then DownloadOps(tmp, net, n + 1) else [])
  }

  /** The attempt that decides: the first that succeeds, is cancelled, or is the third. */
  function LastAttempt(net: nat -> Attempt, n: nat): (m: nat)
    requires n <= DOWNLOAD_ATTEMPTS
    ensures n <= m <= DOWNLOAD_ATTEMPTS && !Retries(net(m), m)
    ensures forall k :: n <= k < m ==> Retries(net(k), k)
    decreases DOWNLOAD_ATTEMPTS - n
  {
    if Retries(net(n), n) then LastAttempt(net, n + 1) else n
  }

  /** Read `k` is the one that ended the body well: the end came with it, none before it ended or
      failed, and every write up to it went through. */
  ghost predicate EndsAt(body: seq<Read>, k: int) {
    && 0 <= k < |body| && body[k].end == Eof
    && (forall i :: 0 <= i < k ==> body[i].end == More)
    && forall i :: 0 <= i <= k ==> body[i].data == "" || body[i].writeOk
  }

  lemma {:induction false} CopyOkIff(body: seq<Read>)
    ensures CopyOk(body) <==> exists k :: EndsAt(body, k)
  {
    if body != [] {
      CopyOkIff(body[1..]);
      if k :| EndsAt(body, k) {
        if k > 0 {
          assert forall i :: 0 <= i < |body| - 1 ==> body[1..][i] == body[i + 1];
          assert EndsAt(body[1..], k - 1);
        }
      }
      if CopyOk(body) {
        if body[0].end == Eof {
          assert EndsAt(body, 0);
        } else {
          var k :| EndsAt(body[1..], k);
          assert forall i :: 1 <= i < |body| ==> body[i] == body[1..][i - 1];
          assert EndsAt(body, k + 1);
        }
      }
    }
  }

  /** A GET succeeds exactly if it was answered, its body was read to the end and written, and the file
      closed. */
  lemma {:induction false} AttemptOkIff(a: Attempt)
    ensures AttemptOk(a) <==> a.answered && a.closeOk && exists k :: EndsAt(a.body, k)
  {
    CopyOkIff(a.body);
  }

  function DataOf(rs: seq<Read>): string {
    if rs == [] then "" else DataOf(rs[..|rs| - 1]) + rs[|rs| - 1].data
  }

  lemma {:induction false} DataFirst(rs: seq<Read>)
    requires rs != []
    ensures DataOf(rs) == rs[0].data + DataOf(rs[1..])
  {
    if |rs| > 1 {
      var front, last := rs[..|rs| - 1], rs[|rs| - 1];
      DataFirst(front);
      assert rs[1..][..|rs[1..]| - 1] == front[1..] && rs[1..][|rs[1..]| - 1] == last;
      assert rs[0].data + DataOf(front[1..]) + last.data == rs[0].data + (DataOf(front[1..]) + last.data);
    } else {
      assert rs[..0] == [] && rs[1..] == [];
      assert "" + rs[0].data == rs[0].data + "";
    }
  }

  /** What is received are the bytes of all reads up to the one with the end, that one's included. */
  lemma {:induction false} ReceivedIs(body: seq<Read>, k: int)
    requires EndsAt(body, k)
    ensures Received(body) == DataOf(body[..k + 1])
  {
    DataFirst(body[..k + 1]);
    if k > 0 {
      assert forall i :: 0 <= i < |body| - 1 ==> body[1..][i] == body[i + 1];
      assert EndsAt(body[1..], k - 1);
      ReceivedIs(body[1..], k - 1);
      assert body[..k + 1][1..] == body[1..][..k];
    } else {
      assert body[..1][1..] == [];
    }
  }

  /** The deciding attempt: none before it succeeded or saw a cancellation, and it succeeds, sees one, or
      is the third. */
  lemma {:induction false} DecidingIff(net: nat -> Attempt, m: nat)
    ensures LastAttempt(net, 1) == m <==>
              && 1 <= m <= 3
              && (forall k :: 1 <= k < m ==> !AttemptOk(net(k)) && !net(k).cancelled)
              && (AttemptOk(net(m)) || net(m).cancelled || m == 3)
  {
    var last := LastAttempt(net, 1);
    if 1 <= m < last {
      assert Retries(net(m), m);
    }
    if last < m <= DOWNLOAD_ATTEMPTS {
      assert !Retries(net(last), last);
    }
  }

  lemma {:induction false} WriteConserves(t: Tree, tmp: string, data: string)
    requires tmp in t
    ensures Exec(t, WriteOps(tmp, data)) == t[tmp := t[tmp] + data]
  {
    if data == "" {
      assert t[tmp] + data == t[tmp];
    } else {
      ExecOne(t, Append(tmp, data));
    }
  }

  lemma {:induction false} AppendTwice(t: Tree, tmp: string, a: string, b: string)
    requires tmp in t
    ensures var t1 := t[tmp := t[tmp] + a]; t1[tmp := t1[tmp] + b] == t[tmp := t[tmp] + (a + b)]
  {
    assert t[tmp] + a + b == t[tmp] + (a + b);
  }

  /** A body copied to its end is in the file, byte for byte. */
  lemma {:induction false} CopyConserves(t: Tree, tmp: string, body: seq<Read>)
    requires tmp in t && CopyOk(body)
    ensures Exec(t, CopyOps(tmp, body)) == t[tmp := t[tmp] + Received(body)]
    decreases |body|
  {
    var data := body[0].data;
    WriteConserves(t, tmp, data);
    if body[0].end == More {
      var rest := body[1..];
      ExecCat(t, WriteOps(tmp, data), CopyOps(tmp, rest));
      CopyConserves(t[tmp := t[tmp] + data], tmp, rest);
      AppendTwice(t, tmp, data, Received(rest));
    } else {
      assert WriteOps(tmp, data) + [] == WriteOps(tmp, data);
      assert data + "" == data;
    }
  }

  /** Nothing of an earlier attempt is left: after a download that succeeded, the temporary file
      holds exactly what the deciding attempt received. */
  lemma {:induction false} DownloadConserves(t: Tree, tmp: string, net: nat -> Attempt, n: nat)
    requires n <= DOWNLOAD_ATTEMPTS
    requires AttemptOk(net(LastAttempt(net, n)))
    ensures Exec(t, DownloadOps(tmp, net, n)) == t[tmp := Received(net(LastAttempt(net, n)).body)]
    decreases DOWNLOAD_ATTEMPTS - n
  {
    var a := net(n);
    if Retries(a, n) {
      var t1 := Exec(t, AttemptOps(tmp, a));
      ExecCat(t, AttemptOps(tmp, a), DownloadOps(tmp, net, n + 1));
      DownloadConserves(t1, tmp, net, n + 1);
      AttemptOnlyTemp(tmp, a);
      OnlyTemp(t, AttemptOps(tmp, a), tmp);
      SameButTemp(t, t1, tmp, Received(net(LastAttempt(net, n)).body));
    } else {
      assert AttemptOps(tmp, a) + [] == AttemptOps(tmp, a);
      ExecCat(t, [Create(tmp)], CopyOps(tmp, a.body));
      ExecOne(t, Create(tmp));
      CopyConserves(t[tmp := ""], tmp, a.body);
      assert "" + Received(a.body) == Received(a.body);
    }
  }

  ghost predicate TouchesOnly(ops: seq<Op>, path: string) {
    forall op :: op in ops ==> (op.Create? || op.Append? || op.Remove?) && op.path == path
  }

  lemma {:induction false} OnlyTemp(t: Tree, ops: seq<Op>, tmp: string)
    requires TouchesOnly(ops, tmp)
    ensures Exec(t, ops) - {tmp} == t - {tmp}
    decreases |ops|
  {
    if ops != [] {
      assert ops[0] in ops;
      OnlyTemp(Step(t, ops[0]), ops[1..], tmp);
    }
  }

  lemma {:induction false} SameButTemp(t: Tree, t1: Tree, tmp: string, data: string)
    requires t1 - {tmp} == t - {tmp}
    ensures t1[tmp := data] == t[tmp := data]
  {
    assert t1[tmp := data] == (t1 - {tmp})[tmp := data];
    assert t[tmp := data] == (t - {tmp})[tmp := data];
  }

  lemma {:induction false} CopyOnlyTemp(tmp: string, body: seq<Read>)
    ensures TouchesOnly(CopyOps(tmp, body), tmp)
  {
    if body != [] { CopyOnlyTemp(tmp, body[1..]); }
  }

  lemma {:induction false} AttemptOnlyTemp(tmp: string, a: Attempt)
    ensures TouchesOnly(AttemptOps(tmp, a), tmp)
  {
    CopyOnlyTemp(tmp, a.body);
  }

  lemma {:induction false} OnlyCat(a: seq<Op>, b: seq<Op>, tmp: string)
    requires TouchesOnly(a, tmp) && TouchesOnly(b, tmp)
    ensures TouchesOnly(a + b, tmp)
  {
  }

  /** The attempts after number `n`. */
  function MoreOps(tmp: string, net: nat -> Attempt, n: nat): seq<Op>
    requires n <= DOWNLOAD_ATTEMPTS
  {
    if Retries(net(n), n) then DownloadOps(tmp, net, n + 1) else []
  }

  lemma {:induction false} DownloadParts(tmp: string, net: nat -> Attempt, n: nat)
    requires n <= DOWNLOAD_ATTEMPTS
    ensures DownloadOps(tmp, net, n) == AttemptOps(tmp, net(n)) + MoreOps(tmp, net, n)
  {
  }

  lemma {:induction false} DownloadOnlyTemp(tmp: string, net: nat -> Attempt, n: nat)
    requires n <= DOWNLOAD_ATTEMPTS
    ensures TouchesOnly(DownloadOps(tmp, net, n), tmp)
    decreases DOWNLOAD_ATTEMPTS - n, 1
  {
    MoreOnlyTemp(tmp, net, n);
    AttemptOnlyTemp(tmp, net(n));
    OnlyCat(AttemptOps(tmp, net(n)), MoreOps(tmp, net, n), tmp);
    DownloadParts(tmp, net, n);
    SameOnly(AttemptOps(tmp, net(n)) + MoreOps(tmp, net, n), DownloadOps(tmp, net, n), tmp);
  }

  lemma {:induction false} MoreOnlyTemp(tmp: string, net: nat -> Attempt, n: nat)
    requires n <= DOWNLOAD_ATTEMPTS
    ensures TouchesOnly(MoreOps(tmp, net, n), tmp)
    decreases DOWNLOAD_ATTEMPTS - n, 0
  {
    if Retries(net(n), n) { DownloadOnlyTemp(tmp, net, n + 1); }
  }

  lemma {:induction false} SameOnly(a: seq<Op>, b: seq<Op>, tmp: string)
    requires a == b && TouchesOnly(a, tmp)
    ensures TouchesOnly(b, tmp)
  {
  }

  /* ----- the loops ----- */

  method WriteChunk(disk: Disk, tmp: string, data: string) returns (alive: bool)
    modifies disk
    ensures (disk.tree, disk.fuel) == Run(old(disk.tree), old(disk.fuel), WriteOps(tmp, data))
    ensures alive <==> |WriteOps(tmp, data)| <= old(disk.fuel)
  {
    alive := true;
    if |data| > 0 {
      alive := disk.Do(Append(tmp, data));
    }
  }

  /** What is left to do after the first read. */
  ghost function RestOps(tmp: string, body: seq<Read>): seq<Op>
    requires body != []
  {
    if body[0].end == More then CopyOps(tmp, body[1..]) else []
  }

  /** copyWithProgress, whose writes are the run's next operations. `written` is what it returns. */
  method Copy(disk: Disk, tmp: string, body: seq<Read>) returns (alive: bool, ok: bool, written: nat)
    modifies disk
    ensures (disk.tree, disk.fuel) == Run(old(disk.tree), old(disk.fuel), CopyOps(tmp, body))
    ensures alive <==> |CopyOps(tmp, body)| <= old(disk.fuel)
    ensures alive ==> ok == CopyOk(body) && (ok ==> written == |Received(body)|)
  {
    written := 0;
    var left := body;
    while true
      invariant Run(disk.tree, disk.fuel, CopyOps(tmp, left)) == Run(old(disk.tree), old(disk.fuel), CopyOps(tmp, body))
      invariant |CopyOps(tmp, left)| <= disk.fuel <==> |CopyOps(tmp, body)| <= old(disk.fuel)
      invariant CopyOk(body) == CopyOk(left)
      invariant |Received(body)| == written + |Received(left)|
      decreases |left|
    {
      if left == [] {
        return true, false, written;
      }
      var r := left[0];
      if |r.data| > 0 && !r.writeOk {
        return true, false, written;
      }
      RunCat(disk.tree, disk.fuel, WriteOps(tmp, r.data), RestOps(tmp, left));
      alive := WriteChunk(disk, tmp, r.data);
      if !alive {
        return false, false, written;
      }
      written := written + |r.data|;
      if r.end == Eof {
        return true, true, written;
      }
      if r.end == Failed {
        return true, false, written;
      }
      left := left[1..];
    }
  }

  /** downloadAttempt: one GET into `tmp`, which it truncates. */
  method TryOnce(disk: Disk, tmp: string, a: Attempt) returns (alive: bool, ok: bool, written: nat)
    modifies disk
    ensures (disk.tree, disk.fuel) == Run(old(disk.tree), old(disk.fuel), AttemptOps(tmp, a))
    ensures alive <==> |AttemptOps(tmp, a)| <= old(disk.fuel)
    ensures alive ==> ok == AttemptOk(a) && (ok ==> written == |Received(a.body)|)
  {
    if !a.answered {
      return true, false, 0;
    }
    assert AttemptOps(tmp, a)[1..] == CopyOps(tmp, a.body);
    var on := disk.Do(Create(tmp));
    if !on {
      return false, false, 0;
    }
    alive, ok, written := Copy(disk, tmp, a.body);
    ok := ok && a.closeOk;
  }

  lemma {:induction false} AttemptFirst(t: Tree, fuel: nat, tmp: string, net: nat -> Attempt, n: nat)
    requires n <= DOWNLOAD_ATTEMPTS
    ensures var ops, more := AttemptOps(tmp, net(n)), MoreOps(tmp, net, n);
            var r := Run(t, fuel, ops);
            && Run(t, fuel, DownloadOps(tmp, net, n)) == (if |ops| <= fuel then Run(r.0, r.1, more) else r)
            && |DownloadOps(tmp, net, n)| == |ops| + |more|
            && (|ops| <= fuel ==> r.1 == fuel - |ops|)
            && (|ops| > fuel ==> r.1 == 0)
  {
    DownloadParts(tmp, net, n);
    RunCat(t, fuel, AttemptOps(tmp, net(n)), MoreOps(tmp, net, n));
  }

  /** downloadWithRetries: at most three attempts, and none after a cancellation. On success the
      returned count is the length of what the deciding attempt received. */
  method WithRetries(disk: Disk, tmp: string, net: nat -> Attempt)
    returns (alive: bool, ok: bool, written: nat, attempts: nat)
    modifies disk
    ensures (disk.tree, disk.fuel) == Run(old(disk.tree), old(disk.fuel), DownloadOps(tmp, net, 1))
    ensures alive <==> |DownloadOps(tmp, net, 1)| <= old(disk.fuel)
    ensures alive ==> attempts == LastAttempt(net, 1) <= DOWNLOAD_ATTEMPTS
    ensures alive ==> ok == AttemptOk(net(attempts))
    ensures alive && ok ==> written == |Received(net(attempts).body)|
  {
    var attempt := 1;
    while true
      invariant 1 <= attempt <= DOWNLOAD_ATTEMPTS
      invariant Run(disk.tree, disk.fuel, DownloadOps(tmp, net, attempt))
             == Run(old(disk.tree), old(disk.fuel), DownloadOps(tmp, net, 1))
      invariant |DownloadOps(tmp, net, attempt)| <= disk.fuel
           <==> |DownloadOps(tmp, net, 1)| <= old(disk.fuel)
      invariant LastAttempt(net, 1) == LastAttempt(net, attempt)
      decreases DOWNLOAD_ATTEMPTS - attempt
    {
      AttemptFirst(disk.tree, disk.fuel, tmp, net, attempt);
      alive, ok, written := TryOnce(disk, tmp, net(attempt));
      attempts := attempt;
      if !alive || ok || net(attempt).cancelled || attempt == DOWNLOAD_ATTEMPTS {
        return;
      }
      attempt := attempt + 1;
    }
  }
}
