/** Host, virtual machine and guest together: how a freshly built kernel gets to cfg.Out
    (cmd/ossein-kernel, cmd/ossein-kernel/init). The host learns what became of a guest only from
    the status file on the share; every step of either side is one transition, and the process can
    be gone between any two, taking its machine with it. */
module Promotion {
  import opened Wrappers
  import opened Status

  /** The two boots of a run, each with a share of its own. */
  datatype Share = Building | Smoking

  datatype Life = Live | Halted | Errored

  /** PID 1: at work; done, with the status it is about to report; or reporting, with so many bytes
      of the record in the file. */
  datatype Guest = Working | Ended(code: int) | Reporting(code: int, written: nat)

  datatype Machine = NoMachine | Machine(kernel: string, share: Share, life: Life, guest: Guest)

  /** Where the host program is. */
  datatype Pc =
    | Idle
    | Begun
    | Cleared(share: Share)
    | Waiting(share: Share)
    | Stopped(share: Share)
    | Promoting
    | Verified
    | Done
    | Failed

  /** `built` is workdir/kernel-arm64, `out` is cfg.Out. */
  datatype State = State(
    pc: Pc, built: Option<string>, status: map<Share, string>, out: Option<string>, vm: Machine)

  datatype Label =
    // the host
    | Begin
    | Clear(share: Share, removed: bool)
    | Boot(share: Share, kernel: string)
    | SawStopped
    | ReadZero
    | CopyOut(bytes: string)
    | Fail
    | Gone
    // the guest and its machine
    | Produce(made: Option<string>)
    | Ends(code: int, failed: bool)
    | OpenStatus
    | PutStatus(written: nat)
    | PowerOff
    | Die(life: Life)

  predicate GuestRuns(s: State) {
    s.vm.Machine? && s.vm.life == Live
  }

  function StatusFile(s: State, share: Share): Option<string> {
    if share in s.status then Some(s.status[share]) else None
  }

  predicate Enabled(s: State, l: Label) {
    match l
    case Begin => s.pc == Idle
    case Clear(share, _) => s.pc == if share == Building then Begun else Promoting
    case Boot(share, kernel) => s.pc == Cleared(share) && (share == Smoking ==> s.built == Some(kernel))
    case SawStopped => s.pc.Waiting? && s.vm.Machine? && s.vm.life == Halted
    case ReadZero => s.pc.Stopped? && ReadStatus(StatusFile(s, s.pc.share)) == Code(0)
    case CopyOut(bytes) => s.pc == Verified && s.built == Some(bytes)
    case Fail => s.pc != Idle
    case Gone => true
    case Produce(_) => GuestRuns(s) && s.vm.share == Building
    case Ends(code, _) => GuestRuns(s) && s.vm.guest == Working && INT_MIN <= code <= INT_MAX
    case OpenStatus => GuestRuns(s) && s.vm.guest.Ended?
    case PutStatus(n) =>
      GuestRuns(s) && s.vm.guest.Reporting? && s.vm.guest.written < n <= |Record(s.vm.guest.code)|
    case PowerOff => GuestRuns(s) && !s.vm.guest.Working?
    case Die(life) => GuestRuns(s) && life != Live
  }

  function Apply(s: State, l: Label): State
    requires Enabled(s, l)
  {
    match l
    case Begin => s.(pc := Begun)
    case Clear(share, removed) => s.(pc := Cleared(share), status := if removed then s.status - {share} else s.status)
    case Boot(share, kernel) => s.(pc := Waiting(share), vm := Machine(kernel, share, Live, Working))
    case SawStopped => s.(pc := Stopped(s.pc.share))
    case ReadZero => s.(pc := if s.pc.share == Building then Promoting else Verified)
    case CopyOut(bytes) => s.(pc := Done, out := Some(bytes))
    case Fail => s.(pc := Failed)
    case Gone => s.(pc := Idle, vm := NoMachine)
    case Produce(made) => s.(built := made)
    case Ends(code, failed) => s.(vm := s.vm.(guest := Ended(FinalCode(code, failed))))
    case OpenStatus =>
      s.(status := s.status[s.vm.share := ""], vm := s.vm.(guest := Reporting(s.vm.guest.code, 0)))
    case PutStatus(n) =>
      s.(status := s.status[s.vm.share := Record(s.vm.guest.code)[..n]],
         vm := s.vm.(guest := Reporting(s.vm.guest.code, n)))
    case PowerOff => s.(vm := s.vm.(life := Halted))
    case Die(life) => s.(vm := s.vm.(life := life))
  }

  /* ----- histories ----- */

  predicate Valid(s: State, ls: seq<Label>)
    decreases |ls|, 0
  {
    ls == [] || (Valid(s, ls[..|ls| - 1]) && Enabled(After(s, ls[..|ls| - 1]), ls[|ls| - 1]))
  }

  function After(s: State, ls: seq<Label>): State
    requires Valid(s, ls)
    decreases |ls|, 1
  {
    if ls == [] then s else Apply(After(s, ls[..|ls| - 1]), ls[|ls| - 1])
  }

  ghost predicate Initial(s: State) {
    s.pc == Idle && s.vm == NoMachine
  }

  predicate Halts(l: Label) {
    l == PowerOff || l == Die(Halted)
  }

  /** The run under way and the boot under way are still those of before. */
  predicate SameBoot(l: Label) {
    !l.Begin? && !l.Gone? && !l.Boot?
  }

  /** These bytes were booted over `share`, that boot's guest ended with status 0 and no error, opened
      the status file and wrote to it, and the machine then stopped; and nothing was booted and no run
      ended since. */
  ghost predicate Vouched(ls: seq<Label>, share: Share, bytes: string) {
    exists a, b, o, w, c :: VouchedAt(ls, share, bytes, a, b, o, w, c)
  }

  ghost predicate VouchedAt(
    ls: seq<Label>, share: Share, bytes: string, a: int, b: int, o: int, w: int, c: int) {
    && 0 <= a < b < o < w < c < |ls|
    && ls[a] == Boot(share, bytes) && ls[b] == Ends(0, false)
    && ls[o] == OpenStatus && ls[w].PutStatus? && Halts(ls[c])
    && forall i :: a < i < |ls| ==> SameBoot(ls[i])
  }

  /** These bytes were booted over `share` and the machine then stopped; and nothing was booted and no
      run ended since. */
  ghost predicate Booted(ls: seq<Label>, share: Share, bytes: string) {
    exists a, c :: 0 <= a < c < |ls| && ls[a] == Boot(share, bytes) && Halts(ls[c])
      && forall i :: a < i < |ls| ==> SameBoot(ls[i])
  }

  /** Where the present boot began, where its guest ended, opened the status file and last wrote to
      it, and where its machine then halted; -1 for not yet. */
  datatype Marks = Marks(boot: int, end: int, open: int, put: int, halt: int)

  const NO_MARKS := Marks(-1, -1, -1, -1, -1)

  function Mark(m: Marks, i: nat, l: Label): Marks {
    match l
    case Boot(_, _) => NO_MARKS.(boot := i)
    case Begin => NO_MARKS
    case Gone => NO_MARKS
    case Ends(_, _) => NO_MARKS.(boot := m.boot, end := i)
    case OpenStatus => m.(open := i, put := -1, halt := -1)
    case PutStatus(_) => m.(put := i, halt := -1)
    case _ => if Halts(l) then m.(halt := i) else m
  }

  function MarksOf(ls: seq<Label>): Marks {
    if ls == [] then NO_MARKS else Mark(MarksOf(ls[..|ls| - 1]), |ls| - 1, ls[|ls| - 1])
  }

  ghost predicate MarksFit(m: Marks, ls: seq<Label>) {
    && -1 <= m.boot < |ls| && -1 <= m.end < |ls| && -1 <= m.open < |ls| && -1 <= m.put < |ls| && -1 <= m.halt < |ls|
    && (m.boot >= 0 ==> ls[m.boot].Boot? && forall i :: m.boot < i < |ls| ==> SameBoot(ls[i]))
    && (m.boot >= 0 && m.end >= 0 ==> m.boot < m.end && ls[m.end].Ends?)
    && (m.open >= 0 ==> m.end < m.open && ls[m.open].OpenStatus?)
    && (m.put >= 0 ==> m.open < m.put && ls[m.put].PutStatus?)
    && (m.halt >= 0 ==> m.boot < m.halt && m.put < m.halt && Halts(ls[m.halt]))
  }

  lemma {:induction false} MarksAlwaysFit(ls: seq<Label>)
    ensures MarksFit(MarksOf(ls), ls)
  {
    if ls != [] {
      var front, l := ls[..|ls| - 1], ls[|ls| - 1];
      assert front + [l] == ls;
      MarksAlwaysFit(front);
      MarkFits(MarksOf(front), front, l);
    }
  }

  lemma {:induction false} MarkFits(m: Marks, ls: seq<Label>, l: Label)
    requires MarksFit(m, ls)
    ensures MarksFit(Mark(m, |ls|, l), ls + [l])
  {
  }

  /* ----- the invariant ----- */

  /** The machine is the one the history booted, and is where the history says. */
  ghost predicate MachineTold(vm: Machine, ls: seq<Label>, m: Marks)
    requires MarksFit(m, ls)
  {
    vm.Machine? ==>
      && m.boot >= 0 && ls[m.boot] == Boot(vm.share, vm.kernel)
      && (vm.guest.Working? <==> m.end == -1)
      && (!vm.guest.Working? ==>
            && INT_MIN <= ls[m.end].code <= INT_MAX
            && vm.guest.code == FinalCode(ls[m.end].code, ls[m.end].failed))
      && (vm.guest.Reporting? ==>
            && m.open >= 0 && vm.guest.written <= |Record(vm.guest.code)|
            && (vm.guest.written > 0 ==> m.put >= 0))
      && (vm.life == Halted ==> m.halt >= 0)
  }

  /** The status file of the booted share, as the present boot found it. */
  function StatusAtBoot(s: State, ls: seq<Label>): Option<string>
    requires Valid(s, ls)
  {
    if ls == [] then None
    else if ls[|ls| - 1].Boot? then StatusFile(After(s, ls[..|ls| - 1]), ls[|ls| - 1].share)
    else StatusAtBoot(s, ls[..|ls| - 1])
  }

  /** The status of the booted share is what this boot's guest has written of its record, or what the
      boot found. */
  ghost predicate StatusTold(s: State, found: Option<string>)
    requires s.vm.Machine?
  {
    var g := s.vm.guest;
    StatusFile(s, s.vm.share) ==
      if g.Reporting? && g.written <= |Record(g.code)| then Some(Record(g.code)[..g.written]) else found
  }

  /** The machine runs, or has run, over this share; the smoke test's with the bytes at the built
      path. */
  ghost predicate On(s: State, share: Share, found: Option<string>) {
    && s.vm.Machine? && s.vm.share == share && StatusTold(s, found)
    && (share == Smoking ==> s.built == Some(s.vm.kernel))
  }

  /** It has stopped, and its status reads 0. */
  ghost predicate Off(s: State, share: Share, found: Option<string>) {
    On(s, share, found) && s.vm.life == Halted && ReadStatus(StatusFile(s, share)) == Code(0)
  }

  /** Where the host is, what it may rely on; `found` is the status the present boot found. */
  ghost predicate HostTold(s: State, found: Option<string>) {
    match s.pc
    case Idle => s.vm.NoMachine?
    case Begun => s.vm.NoMachine?
    case Cleared(share) => if share == Building then s.vm.NoMachine? else Off(s, Building, found)
    case Waiting(share) => On(s, share, found)
    case Stopped(share) => On(s, share, found) && s.vm.life == Halted
    case Promoting => Off(s, Building, found)
    case Verified => Off(s, Smoking, found)
    case Done => true
    case Failed => true
  }

  /** The host has read a 0 off this share and booted nothing since. */
  predicate Passed(pc: Pc, share: Share) {
    if share == Building then pc == Promoting || pc == Cleared(Smoking) else pc == Verified
  }

  lemma {:induction false} HostStep(s: State, l: Label, found: Option<string>)
    requires HostTold(s, found) && Enabled(s, l)
    requires s.vm.Machine? && s.vm.guest.Reporting? ==> s.vm.guest.written <= |Record(s.vm.guest.code)|
    ensures HostTold(Apply(s, l), if l.Boot? then StatusFile(s, l.share) else found)
  {
  }

  lemma {:induction false} MachineStep(s: State, l: Label, ls: seq<Label>, found: Option<string>)
    requires MarksFit(MarksOf(ls), ls) && MachineTold(s.vm, ls, MarksOf(ls)) && HostTold(s, found) && Enabled(s, l)
    requires MarksFit(MarksOf(ls + [l]), ls + [l])
    ensures MachineTold(Apply(s, l).vm, ls + [l], MarksOf(ls + [l]))
  {
    assert (ls + [l])[..|ls|] == ls;
    assert MarksOf(ls + [l]) == Mark(MarksOf(ls), |ls|, l);
  }

  /** Kept by every step, whoever takes it. */
  lemma {:induction false} Told(s: State, ls: seq<Label>)
    requires Initial(s) && Valid(s, ls)
    ensures MarksFit(MarksOf(ls), ls)
    ensures MachineTold(After(s, ls).vm, ls, MarksOf(ls)) && HostTold(After(s, ls), StatusAtBoot(s, ls))
  {
    MarksAlwaysFit(ls);
    if ls != [] {
      var front, l := ls[..|ls| - 1], ls[|ls| - 1];
      Told(s, front);
      assert front + [l] == ls;
      MachineStep(After(s, front), l, front, StatusAtBoot(s, front));
      HostStep(After(s, front), l, StatusAtBoot(s, front));
    }
  }

  lemma {:induction false} ValidPrefix(s: State, ls: seq<Label>, k: nat)
    requires Valid(s, ls) && k <= |ls|
    ensures Valid(s, ls[..k])
  {
    if k < |ls| {
      ValidPrefix(s, ls[..|ls| - 1], k);
      assert ls[..|ls| - 1][..k] == ls[..k];
    } else {
      assert ls[..k] == ls;
    }
  }

  /** What stands behind a boot that has passed. A zero that is read was written by this boot's guest,
      unless the boot found one to be read: a torn record of another status never reads as one. */
  lemma {:induction false} PassedIsVouched(s: State, ls: seq<Label>, share: Share)
    requires Initial(s) && Valid(s, ls) && Passed(After(s, ls).pc, share)
    ensures ReadStatus(StatusFile(After(s, ls), share)) == Code(0)
    ensures var vm := After(s, ls).vm;
            && vm.Machine? && Booted(ls, share, vm.kernel)
            && (share == Smoking ==> After(s, ls).built == Some(vm.kernel))
            && (ReadStatus(StatusAtBoot(s, ls)) != Code(0) ==> Vouched(ls, share, vm.kernel))
  {
    Told(s, ls);
    var vm, m := After(s, ls).vm, MarksOf(ls);
    assert ls[m.boot] == Boot(share, vm.kernel) && Halts(ls[m.halt]);
    if ReadStatus(StatusAtBoot(s, ls)) != Code(0) {
      assert vm.guest.Reporting?;
      var p := Record(vm.guest.code)[..vm.guest.written];
      TornNeverSucceeds(vm.guest.code, p);
      NothingReadsEmpty();
      assert p != "";
      assert VouchedAt(ls, share, vm.kernel, m.boot, m.end, m.open, m.put, m.halt);
    }
  }

  /** The smoke test's, told of the built kernel. */
  lemma {:induction false} VerifiedIsVouched(s: State, ls: seq<Label>)
    requires Initial(s) && Valid(s, ls) && After(s, ls).pc == Verified
    ensures After(s, ls).built.Some? && Booted(ls, Smoking, After(s, ls).built.value)
    ensures ReadStatus(StatusAtBoot(s, ls)) != Code(0) ==> Vouched(ls, Smoking, After(s, ls).built.value)
  {
    PassedIsVouched(s, ls, Smoking);
  }

  /** The build machine was booted in the run under way, nothing since, and stopped; the status on its
      share reads 0; and unless the boot found a 0 there, its guest ended with status 0 and no error and
      wrote so. */
  ghost predicate BuildPassed(s: State, ls: seq<Label>) {
    && Valid(s, ls) && ReadStatus(StatusFile(After(s, ls), Building)) == Code(0)
    && exists bootstrap :: Booted(ls, Building, bootstrap)
         && (ReadStatus(StatusAtBoot(s, ls)) != Code(0) ==> Vouched(ls, Building, bootstrap))
  }

  /** No smoke test without a build that passed: every boot of a built kernel, in every history, comes
      straight after one. */
  lemma {:induction false} SmokeAfterBuild(s: State, ls: seq<Label>, k: nat)
    requires Initial(s) && Valid(s, ls) && k < |ls| && ls[k].Boot? && ls[k].share == Smoking
    ensures BuildPassed(s, ls[..k])
  {
    CopyIsEnabled(s, ls, k);
    PassedIsVouched(s, ls[..k], Building);
  }

  lemma {:induction false} NothingReadsEmpty()
    ensures ReadStatus(Some("")) == Empty
  {
  }

  /** One past the last copy; 0 for none. */
  function LastCopy(ls: seq<Label>): (n: nat)
    ensures n <= |ls|
    ensures n > 0 ==> ls[n - 1].CopyOut?
    ensures forall i :: n <= i < |ls| ==> !ls[i].CopyOut?
  {
    if ls == [] then 0 else if ls[|ls| - 1].CopyOut? then |ls| else LastCopy(ls[..|ls| - 1])
  }

  lemma {:induction false} OutIsLastCopy(s: State, ls: seq<Label>)
    requires Valid(s, ls)
    ensures var n := LastCopy(ls); After(s, ls).out == if n == 0 then s.out else Some(ls[n - 1].bytes)
  {
    if ls != [] {
      OutIsLastCopy(s, ls[..|ls| - 1]);
    }
  }

  lemma {:induction false} CopyIsEnabled(s: State, ls: seq<Label>, k: nat)
    requires Valid(s, ls) && k < |ls|
    ensures Valid(s, ls[..k]) && Enabled(After(s, ls[..k]), ls[k])
  {
    ValidPrefix(s, ls, k + 1);
    assert ls[..k + 1][..k] == ls[..k];
  }

  /** These bytes were smoke-tested last, in a boot that came after a build that passed. */
  ghost predicate SmokedAfterBuild(s: State, ls: seq<Label>, bytes: string) {
    exists a :: 0 <= a < |ls| && ls[a] == Boot(Smoking, bytes) && BuildPassed(s, ls[..a])
      && forall i :: a < i < |ls| ==> SameBoot(ls[i])
  }

  /** Promotion over every history of runs, failures, kills, guest crashes and torn status writes:
      cfg.Out holds what it held at first, or bytes that the run which put them there had booted in
      a machine that stopped, after a build that passed; and unless that boot found a status that reads
      0, its guest had first ended with status 0 and reported it. */
  lemma {:induction false} PromotionSafe(s: State, ls: seq<Label>)
    requires Initial(s) && Valid(s, ls)
    ensures var out, n := After(s, ls).out, LastCopy(ls);
            if n == 0 then out == s.out
            else
              && out == Some(ls[n - 1].bytes)
              && Booted(ls[..n - 1], Smoking, ls[n - 1].bytes)
              && SmokedAfterBuild(s, ls[..n - 1], ls[n - 1].bytes)
              && Valid(s, ls[..n - 1])
              && (ReadStatus(StatusAtBoot(s, ls[..n - 1])) != Code(0) ==>
                    Vouched(ls[..n - 1], Smoking, ls[n - 1].bytes))
  {
    OutIsLastCopy(s, ls);
    var n := LastCopy(ls);
    if n > 0 {
      CopyIsEnabled(s, ls, n - 1);
      VerifiedIsVouched(s, ls[..n - 1]);
      BootedAfterBuild(s, ls[..n - 1], ls[n - 1].bytes);
    }
  }

  lemma {:induction false} BootedAfterBuild(s: State, ls: seq<Label>, bytes: string)
    requires Initial(s) && Valid(s, ls) && Booted(ls, Smoking, bytes)
    ensures SmokedAfterBuild(s, ls, bytes)
  {
    var a, c :| 0 <= a < c < |ls| && ls[a] == Boot(Smoking, bytes) && Halts(ls[c])
                && forall i :: a < i < |ls| ==> SameBoot(ls[i]);
    SmokeAfterBuild(s, ls, a);
  }

  /** What a boot finds, where every stale status of its share was removed: nothing. */
  ghost predicate Fresh(s: State, share: Share, found: Option<string>) {
    && (s.pc == Cleared(share) ==> share !in s.status)
    && (s.pc == Waiting(share) || s.pc == Stopped(share) || Passed(s.pc, share) ==> found == None)
  }

  lemma {:induction false} FreshStep(s: State, l: Label, share: Share, found: Option<string>)
    requires HostTold(s, found) && Fresh(s, share, found) && Enabled(s, l) && l != Clear(share, false)
    ensures Fresh(Apply(s, l), share, if l.Boot? then StatusFile(s, l.share) else found)
  {
  }

  lemma {:induction false} AlwaysFresh(s: State, ls: seq<Label>, share: Share)
    requires Initial(s) && Valid(s, ls) && Clear(share, false) !in ls
    ensures Fresh(After(s, ls), share, StatusAtBoot(s, ls))
  {
    if ls != [] {
      var front, l := ls[..|ls| - 1], ls[|ls| - 1];
      AlwaysFresh(s, front, share);
      Told(s, front);
      assert l in ls;
      FreshStep(After(s, front), l, share, StatusAtBoot(s, front));
    }
  }

  /** A removal that succeeds is enough: where every attempt on the stale status of a share did,
      whatever passes over it is vouched for. */
  lemma {:induction false} RemovalSuffices(s: State, ls: seq<Label>, share: Share)
    requires Initial(s) && Valid(s, ls) && Clear(share, false) !in ls && Passed(After(s, ls).pc, share)
    ensures After(s, ls).vm.Machine? && Vouched(ls, share, After(s, ls).vm.kernel)
  {
    AlwaysFresh(s, ls, share);
    PassedIsVouched(s, ls, share);
  }

  /* ----- it can succeed, and what it rests on ----- */

  lemma {:induction false} Snoc(s: State, ls: seq<Label>, l: Label)
    requires Valid(s, ls) && Enabled(After(s, ls), l)
    ensures Valid(s, ls + [l]) && After(s, ls + [l]) == Apply(After(s, ls), l)
  {
    assert (ls + [l])[..|ls|] == ls;
  }

  /** Some history leads from the one state to the other. */
  ghost predicate Reaches(s: State, now: State) {
    exists ls :: Valid(s, ls) && After(s, ls) == now
  }

  lemma {:induction false} Start(s: State)
    ensures Reaches(s, s)
  {
    assert Valid(s, []) && After(s, []) == s;
  }

  lemma {:induction false} Take(s: State, now: State, l: Label) returns (next: State)
    requires Reaches(s, now) && Enabled(now, l)
    ensures Reaches(s, next) && next == Apply(now, l)
  {
    var ls :| Valid(s, ls) && After(s, ls) == now;
    next := Apply(now, l);
    Snoc(s, ls, l);
  }

  /** The status has been read as 0, and nothing else has changed but the machine. */
  ghost predicate ReadOff(before: State, now: State)
    requires before.pc.Waiting?
  {
    && now.pc == (if before.pc.share == Building then Promoting else Verified)
    && now.built == before.built && now.out == before.out
    && ReadStatus(StatusFile(now, before.pc.share)) == Code(0)
    && forall share :: share != before.pc.share ==> StatusFile(now, share) == StatusFile(before, share)
  }

  /** A guest that ends well and gets its whole record out: its status is read as 0. */
  lemma {:induction false} GoodEnd(s: State, before: State) returns (now: State)
    requires Reaches(s, before)
    requires before.pc.Waiting? && GuestRuns(before) && before.vm.guest == Working && before.vm.share == before.pc.share
    ensures Reaches(s, now) && ReadOff(before, now)
  {
    var reported := GoodReport(s, before);
    now := GoodStop(s, reported);
  }

  lemma {:induction false} GoodReport(s: State, before: State) returns (now: State)
    requires Reaches(s, before)
    requires before.pc.Waiting? && GuestRuns(before) && before.vm.guest == Working && before.vm.share == before.pc.share
    ensures Reaches(s, now) && now.pc == before.pc && now.built == before.built && now.out == before.out
    ensures GuestRuns(now) && !now.vm.guest.Working?
    ensures ReadStatus(StatusFile(now, before.pc.share)) == Code(0)
    ensures forall share :: share != before.pc.share ==> StatusFile(now, share) == StatusFile(before, share)
  {
    now := Take(s, before, Ends(0, false));
    now := Take(s, now, OpenStatus);
    WholeRecord();
    now := Take(s, now, PutStatus(|Record(0)|));
  }

  lemma {:induction false} GoodStop(s: State, before: State) returns (now: State)
    requires Reaches(s, before)
    requires before.pc.Waiting? && GuestRuns(before) && !before.vm.guest.Working?
    requires ReadStatus(StatusFile(before, before.pc.share)) == Code(0)
    ensures Reaches(s, now) && ReadOff(before, now)
  {
    now := Take(s, before, PowerOff);
    now := Take(s, now, SawStopped);
    now := Take(s, now, ReadZero);
  }

  lemma {:induction false} WholeRecord()
    ensures |Record(0)| > 0 && ReadStatus(Some(Record(0)[..|Record(0)|])) == Code(0)
  {
    assert Record(0)[..|Record(0)|] == Record(0);
    StatusRoundTrip(0);
  }

  /** A run up to the point where the smoke test is to be set up. */
  lemma {:induction false} BuildRun(s: State, before: State, bootstrap: string, kernel: string) returns (now: State)
    requires Reaches(s, before) && before.pc == Idle
    ensures Reaches(s, now) && now.pc == Promoting && now.built == Some(kernel)
    ensures StatusFile(now, Smoking) == StatusFile(before, Smoking)
  {
    now := Take(s, before, Begin);
    now := Take(s, now, Clear(Building, true));
    now := Take(s, now, Boot(Building, bootstrap));
    now := Take(s, now, Produce(Some(kernel)));
    now := GoodEnd(s, now);
  }

  /** Every kernel a build leaves can be promoted, in a run that removes the stale status; its zero
      is then the next run's stale one. */
  lemma {:induction false} PromotionReachable(s: State, bootstrap: string, kernel: string) returns (now: State)
    requires Initial(s)
    ensures Reaches(s, now) && now.pc == Done && now.out == Some(kernel)
    ensures ReadStatus(StatusFile(now, Smoking)) == Code(0)
  {
    Start(s);
    now := BuildRun(s, s, bootstrap, kernel);
    now := Take(s, now, Clear(Smoking, true));
    now := Take(s, now, Boot(Smoking, kernel));
    now := GoodEnd(s, now);
    now := Take(s, now, CopyOut(kernel));
  }

  /** A boot of `kernel` that passes, taken up where `ls` has dealt with the stale status, up to the
      point where the host has read its 0: the boot and what follows it in the same run. */
  ghost predicate PassesFrom(s: State, ls: seq<Label>, share: Share, kernel: string, rest: seq<Label>) {
    var t := ls + [Boot(share, kernel)] + rest;
    && Valid(s, t) && After(s, t).pc == (if share == Building then Promoting else Verified)
    && forall l :: l in rest ==> SameBoot(l)
  }

  lemma {:induction false} FoundByThisBoot(s: State, ls: seq<Label>, share: Share, kernel: string, rest: seq<Label>)
    requires Valid(s, ls + [Boot(share, kernel)] + rest) && forall l :: l in rest ==> SameBoot(l)
    ensures Valid(s, ls)
    ensures StatusAtBoot(s, ls + [Boot(share, kernel)] + rest) == StatusFile(After(s, ls), share)
    decreases |rest|
  {
    var booted := ls + [Boot(share, kernel)];
    var t := booted + rest;
    if rest == [] {
      assert t == booted && booted[..|ls|] == ls;
    } else {
      var front := rest[..|rest| - 1];
      assert t[..|t| - 1] == booted + front && t[|t| - 1] == rest[|rest| - 1];
      assert rest[|rest| - 1] in rest && forall l :: l in front ==> l in rest;
      FoundByThisBoot(s, ls, share, kernel, front);
    }
  }

  /** A guest that dies without a word, over a status that reads 0. */
  const SILENT := [Die(Halted), SawStopped, ReadZero]

  lemma {:induction false} SilentPasses(s: State, ls: seq<Label>, share: Share, kernel: string)
    requires Valid(s, ls) && After(s, ls).pc == Cleared(share)
    requires share == Smoking ==> After(s, ls).built == Some(kernel)
    requires ReadStatus(StatusFile(After(s, ls), share)) == Code(0)
    ensures PassesFrom(s, ls, share, kernel, SILENT)
    ensures After(s, ls + [Boot(share, kernel)] + SILENT).built == After(s, ls).built
  {
    Snoc(s, ls, Boot(share, kernel));
    var s1 := Apply(After(s, ls), Boot(share, kernel));
    var s2 := Apply(s1, Die(Halted));
    var s3 := Apply(s2, SawStopped);
    var s4 := Apply(s3, ReadZero);
    assert s4.pc == (if share == Building then Promoting else Verified) && s4.built == After(s, ls).built;
    SnocThree(s, ls + [Boot(share, kernel)], Die(Halted), SawStopped, ReadZero);
  }

  lemma {:induction false} SnocThree(s: State, t: seq<Label>, a: Label, b: Label, c: Label)
    requires Valid(s, t) && Enabled(After(s, t), a) && Enabled(Apply(After(s, t), a), b)
    requires Enabled(Apply(Apply(After(s, t), a), b), c)
    ensures Valid(s, t + [a, b, c]) && After(s, t + [a, b, c]) == Apply(Apply(Apply(After(s, t), a), b), c)
  {
    Snoc(s, t, a);
    Snoc(s, t + [a], b);
    Snoc(s, t + [a] + [b], c);
    assert t + [a] + [b] + [c] == t + [a, b, c];
  }

  lemma {:induction false} SilentIsNotVouched(ls: seq<Label>, share: Share, kernel: string)
    ensures !Vouched(ls + [Boot(share, kernel)] + SILENT, share, kernel)
  {
    var t, n := ls + [Boot(share, kernel)] + SILENT, |ls|;
    assert t[n] == Boot(share, kernel) && t[n + 1..] == SILENT;
    assert t[n + 1] == SILENT[0] && t[n + 2] == SILENT[1] && t[n + 3] == SILENT[2];
  }

  /** What the promise rests on, exactly, and as the host could tell before it boots: in every history
      that has got that far, each way for the boot to pass is vouched for if and only if the status file
      does not read 0. */
  lemma {:induction false} VouchedIff(s: State, ls: seq<Label>, share: Share, kernel: string)
    requires Initial(s) && Valid(s, ls) && After(s, ls).pc == Cleared(share)
    requires share == Smoking ==> After(s, ls).built == Some(kernel)
    ensures ReadStatus(StatusFile(After(s, ls), share)) != Code(0)
       <==> forall rest :: PassesFrom(s, ls, share, kernel, rest) ==>
              Vouched(ls + [Boot(share, kernel)] + rest, share, kernel)
  {
    if ReadStatus(StatusFile(After(s, ls), share)) != Code(0) {
      forall rest | PassesFrom(s, ls, share, kernel, rest)
        ensures Vouched(ls + [Boot(share, kernel)] + rest, share, kernel)
      {
        PassingIsVouched(s, ls, share, kernel, rest);
      }
    } else {
      SilentPasses(s, ls, share, kernel);
      SilentIsNotVouched(ls, share, kernel);
    }
  }

  lemma {:induction false} PassingIsVouched(s: State, ls: seq<Label>, share: Share, kernel: string, rest: seq<Label>)
    requires Initial(s) && Valid(s, ls) && PassesFrom(s, ls, share, kernel, rest)
    requires ReadStatus(StatusFile(After(s, ls), share)) != Code(0)
    ensures Vouched(ls + [Boot(share, kernel)] + rest, share, kernel)
  {
    var t := ls + [Boot(share, kernel)] + rest;
    FoundByThisBoot(s, ls, share, kernel, rest);
    PassedIsVouched(s, t, share);
    Told(s, t);
    BootOf(ls, share, kernel, rest);
  }

  lemma {:induction false} BootOf(ls: seq<Label>, share: Share, kernel: string, rest: seq<Label>)
    requires forall l :: l in rest ==> SameBoot(l)
    ensures MarksOf(ls + [Boot(share, kernel)] + rest).boot == |ls|
    decreases |rest|
  {
    var booted := ls + [Boot(share, kernel)];
    var t := booted + rest;
    if rest == [] {
      assert t == booted;
    } else {
      var front := rest[..|rest| - 1];
      assert t[..|t| - 1] == booted + front && t[|t| - 1] == rest[|rest| - 1];
      assert rest[|rest| - 1] in rest && forall l :: l in front ==> l in rest;
      BootOf(ls, share, kernel, front);
    }
  }

  /** The failing input is one that the program reaches: a run promotes one kernel and leaves its zero
      behind; the next builds another, fails to remove that zero, and its guest dies without a word.
      The other kernel is promoted. */
  lemma {:induction false} StaleStatusPromotes(s: State, bootstrap: string, first: string, second: string)
    returns (t: seq<Label>)
    requires Initial(s)
    ensures Valid(s, t) && After(s, t).pc == Verified && After(s, t).built == Some(second)
    ensures Valid(s, t + [CopyOut(second)]) && After(s, t + [CopyOut(second)]).out == Some(second)
    ensures !Vouched(t, Smoking, second)
  {
    var now := PromotionReachable(s, bootstrap, first);
    now := Take(s, now, Gone);
    now := BuildRun(s, now, bootstrap, second);
    now := Take(s, now, Clear(Smoking, false));
    var ls :| Valid(s, ls) && After(s, ls) == now;
    SilentPasses(s, ls, Smoking, second);
    SilentIsNotVouched(ls, Smoking, second);
    t := ls + [Boot(Smoking, second)] + SILENT;
    Snoc(s, t, CopyOut(second));
  }
}
