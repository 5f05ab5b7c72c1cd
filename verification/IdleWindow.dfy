/** The poll window among the other steps of the idle machine: what the CPU can leave it for, and that
    a CPU with nothing to do leaves it and parks. */
module IdleWindow {
  import opened IdleProtocol

  /** Step `p` took the CPU out of PollStart and into the poll; it has been polling since, up to `n`. */
  ghost predicate PollingSince(d: Design, states: seq<State>, steps: seq<Step>, p: nat, n: nat) {
    && p < n < |states| && |states| == |steps| + 1
    && states[p].pc == PollStart && steps[p] == Cpu
    && forall i :: p < i <= n ==> InWindow(states[i].pc) && states[i].pc != PollStart
  }

  lemma {:induction false} Entered(d: Design, states: seq<State>, steps: seq<Step>, n: nat) returns (p: nat)
    requires IsRun(d, states, steps) && n < |states|
    requires InWindow(states[n].pc) && states[n].pc != PollStart
    ensures PollingSince(d, states, steps, p, n)
    ensures d.pollNs > 0 && states[n].deadline == states[p].clock + d.pollNs
    decreases n
  {
    EnterStep(d, states[n - 1], steps[n - 1]);
    if states[n - 1].pc == PollStart && steps[n - 1] == Cpu {
      p := n - 1;
    } else {
      p := Entered(d, states, steps, n - 1);
    }
  }

  lemma {:induction false} EnterStep(d: Design, s: State, step: Step)
    requires Enabled(s, step)
    ensures var t := Apply(d, s, step);
            InWindow(t.pc) && t.pc != PollStart ==>
              || (s.pc == PollStart && step == Cpu && d.pollNs > 0 && t.deadline == s.clock + d.pollNs)
              || (InWindow(s.pc) && s.pc != PollStart && t.deadline == s.deadline)
  {
  }

  lemma {:induction false} EndStep(d: Design, s: State, step: Step)
    requires Enabled(s, step) && Apply(d, s, step).pc == PollEnd && s.pc != PollEnd
    ensures step == Cpu
    ensures (s.pc == PollRead && s.flags.Resched()) || (s.pc == PollClock && s.clock >= s.deadline)
  {
  }

  /** The CPU's step `m` ended the poll that began at `p`: by a look that saw a resched bit, or at a
      clock no less than the whole window past the one it began at. */
  ghost predicate EndsPoll(d: Design, states: seq<State>, steps: seq<Step>, p: nat, m: nat) {
    && PollingSince(d, states, steps, p, m) && m < |steps| && steps[m] == Cpu
    && ((states[m].pc == PollRead && states[m].flags.Resched())
        || (states[m].pc == PollClock && states[m].clock >= states[p].clock + d.pollNs))
  }

  lemma {:induction false} WhyPollEnded(d: Design, states: seq<State>, steps: seq<Step>, n: nat)
    returns (p: nat, m: nat)
    requires IsRun(d, states, steps) && n < |states| && states[n].pc == PollEnd
    ensures m < n && EndsPoll(d, states, steps, p, m) && PollingSince(d, states, steps, p, n)
    decreases n
  {
    if states[n - 1].pc == PollEnd {
      p, m := WhyPollEnded(d, states, steps, n - 1);
    } else {
      EndStep(d, states[n - 1], steps[n - 1]);
      p := Entered(d, states, steps, n - 1);
      m := n - 1;
    }
  }

  /** Nothing else ends the window, in any run of any design with one: the CPU leaves it by a look that
      saw a resched bit, or when idle_poll_ns has gone by since it began to poll. */
  lemma {:induction false} WindowLeft(d: Design, states: seq<State>, steps: seq<Step>, n: nat)
    returns (p: nat, m: nat)
    requires IsRun(d, states, steps) && n < |steps| && d.pollNs > 0
    requires InWindow(states[n].pc) && !InWindow(states[n + 1].pc)
    ensures m < n && EndsPoll(d, states, steps, p, m) && PollingSince(d, states, steps, p, n)
  {
    assert states[n + 1] == Apply(d, states[n], steps[n]);
    p, m := WhyPollEnded(d, states, steps, n);
  }

  /** In the patch's design the bit is never cleared but straight after the window: from PollStart at
      `p` to the clear, reached at `q` and still to be done at `n`. */
  lemma {:induction false} ClearsAfterWindow(d: Design, states: seq<State>, steps: seq<Step>, n: nat)
    returns (p: nat, q: nat)
    requires IsRun(d, states, steps) && n < |states| && d.window == BeforeClear && states[n].pc == ClearPolling
    ensures p < q <= n && states[p].pc == PollStart
    ensures forall i :: p <= i < q ==> InWindow(states[i].pc)
    ensures forall i :: q <= i <= n ==> states[i].pc == ClearPolling
    decreases n
  {
    assert Enabled(states[n - 1], steps[n - 1]) && states[n] == Apply(d, states[n - 1], steps[n - 1]);
    if states[n - 1].pc == ClearPolling {
      p, q := ClearsAfterWindow(d, states, steps, n - 1);
    } else {
      q := n;
      if states[n - 1].pc == PollStart {
        p := n - 1;
      } else {
        p := Entered(d, states, steps, n - 1);
      }
    }
  }

  /* ----- a CPU with nothing to do ----- */

  predicate Quiet(step: Step) {
    step.Cpu? || step.Kick? || step.Tick?
  }

  predicate NothingToDo(s: State) {
    s.pending == {} && s.sending == {} && !s.flags.needResched
  }

  /** Past its window, or on the way from there to the park. */
  predicate Due(d: Design, s: State) {
    NothingToDo(s)
    && ((InWindow(s.pc) && s.pc != PollStart && s.clock >= s.deadline)
        || (d.window != AfterClear && (s.pc == ClearPolling || s.pc == Recheck)))
  }

  const LONGEST: nat := 9

  function ParkRank(pc: Pc): nat {
    match pc
    case PollRead => 8
    case PollArm(_) => 7
    case PollWait => 6
    case PollClock => 5
    case PollEnd => 4
    case ClearPolling => 3
    case Recheck => 2
    case _ => 0
  }

  lemma {:induction false} DueStep(d: Design, s: State, step: Step)
    requires Due(d, s) && Quiet(step) && Enabled(s, step)
    ensures var t := Apply(d, s, step);
            t.pc == Parked
            || (Due(d, t) && ParkRank(t.pc) <= ParkRank(s.pc) && (step == Cpu ==> ParkRank(t.pc) < ParkRank(s.pc)))
  {
  }

  /** The lazy bit ends a poll but not the idle loop: the CPU leaves that only where it sees
      NEED_RESCHED. */
  lemma {:induction false} LeavesOnResched(d: Design, s: State, step: Step)
    requires Enabled(s, step) && s.pc != Running && Apply(d, s, step).pc == Running
    ensures step == Cpu && s.pc == LoopTest && s.flags.needResched
  {
  }

  /** How many of these steps are the CPU's. */
  function Turns(steps: seq<Step>): nat {
    if steps == [] then 0 else (if steps[0] == Cpu then 1 else 0) + Turns(steps[1..])
  }

  lemma {:induction false} DueParks(d: Design, states: seq<State>, steps: seq<Step>, n: nat, m: nat)
    returns (k: nat)
    requires IsRun(d, states, steps) && n <= m < |states| && Due(d, states[n])
    requires forall i :: n <= i < m ==> Quiet(steps[i])
    requires Turns(steps[n..m]) > ParkRank(states[n].pc)
    ensures n < k <= m && states[k].pc == Parked
    decreases m - n
  {
    assert n < m && steps[n..m][0] == steps[n] && steps[n..m][1..] == steps[n + 1..m];
    DueStep(d, states[n], steps[n]);
    if states[n + 1].pc == Parked {
      k := n + 1;
    } else {
      k := DueParks(d, states, steps, n + 1, m);
    }
  }

  /** A truly idle CPU costs nothing: once idle_poll_ns has gone by since it began to poll, with nothing
      stored and no interrupt, it parks within nine steps of its own, whatever kicks and ticks fall
      between them. */
  lemma {:induction false} IdleParks(
    d: Design, states: seq<State>, steps: seq<Step>, p: nat, n: nat, m: nat) returns (k: nat)
    requires IsRun(d, states, steps) && n <= m < |states| && PollingSince(d, states, steps, p, n)
    requires states[n].clock >= states[p].clock + d.pollNs && NothingToDo(states[n])
    requires forall i :: n <= i < m ==> Quiet(steps[i])
    requires Turns(steps[n..m]) >= LONGEST
    ensures n < k <= m && states[k].pc == Parked
  {
    var p' := Entered(d, states, steps, n);
    assert p' == p;
    k := DueParks(d, states, steps, n, m);
  }

  /** It never waits for anything but the next kick. */
  lemma {:induction false} KickFrees(d: Design, s: State)
    requires Due(d, s)
    ensures Enabled(s, Kick) && Enabled(Apply(d, s, Kick), Cpu)
  {
  }
}
