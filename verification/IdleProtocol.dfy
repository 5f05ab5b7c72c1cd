/** The idle loop that polls before it parks, and the wakers that elide their IPI while it does:
    one idle CPU, any number of wakers and device interrupts, one step at a time. */
module IdleProtocol {

  /** Where the bounded poll sits. The patch puts it before the polling bit is cleared; it rejects
      the flag without a poll, and the poll inside arch_cpu_idle(), after the bit is cleared. */
  datatype Window = BeforeClear | AfterClear | Absent

  /** `recheck`: whether the flags word is tested again once the bit is cleared;
      `pollNs`: the idle_poll_ns tunable. */
  datatype Design = Design(window: Window, recheck: bool, pollNs: nat)

  /** The bits of the flags word the protocol reads. */
  datatype Flags = Flags(needResched: bool, lazy: bool, polling: bool) {
    predicate Resched() { needResched || lazy }
  }

  /** The idle CPU's next action. */
  datatype Pc =
    | Running                  // off the idle loop; set the polling bit and enter it
    | LoopTest                 // while (!need_resched()), then mask interrupts
    | PollStart                // compute the deadline, enable interrupts
    | PollRead                 // read the flags word; leave on either resched bit
    | PollArm(seen: Flags)     // load-exclusive; sleep only if the word is unchanged
    | PollWait                 // asleep until the monitor is cleared or something kicks
    | PollClock                // another turn, or past the deadline
    | PollEnd                  // disable interrupts
    | ClearPolling
    | Recheck
    | Parked                   // in WFI, interrupts masked
    | Unmask                   // enable interrupts on the way back
    | SetPolling

  /** A pending interrupt; `wakes` says its handler makes a task runnable here. An IPI always does. */
  datatype Irq = Irq(id: nat, wakes: bool)

  /** The last four fields record what became of each wakeup: found the bit clear and still has
      to send its IPI; elided its IPI; was delivered by a handler; was acted on by the scheduler. */
  datatype State = State(
    pc: Pc, flags: Flags, masked: bool, event: bool, clock: nat, deadline: nat,
    pending: set<Irq>, nextId: nat,
    sending: set<nat>, elided: set<nat>, landed: set<nat>, served: set<nat>)

  datatype Step =
    | Cpu                     // the idle CPU executes its next action
    | Take(irq: Irq)          // ... or takes an unmasked interrupt
    | Wake(stores: bool)      // a waker's atomic test of the polling bit
    | SendIpi(id: nat)        // a waker that found the bit clear sends its IPI
    | Device(wakes: bool)     // a device raises an interrupt
    | StoreLazy               // someone stores the lazy resched bit
    | Kick                    // the event stream
    | Tick                    // time passes

  function Initial(): State {
    State(Running, Flags(false, false, false), false, false, 0, 0, {}, 0, {}, {}, {}, {})
  }

  predicate Enabled(s: State, step: Step) {
    match step
    case Cpu =>
      match s.pc {
        case PollWait => s.event
        case Parked => s.pending != {}
        case _ => true
      }
    case Take(irq) => !s.masked && irq in s.pending
    case SendIpi(id) => id in s.sending
    case _ => true
  }

  /** Past the loop test: the window, or straight on to clearing the bit. */
  function AfterTest(d: Design): Pc {
    if d.window == BeforeClear then PollStart else ClearPolling
  }

  /** Past the second test: park, or the misplaced window. */
  function AfterRecheck(d: Design): Pc {
    if d.window == AfterClear then PollStart else Parked
  }

  function AfterWindow(d: Design): Pc {
    if d.window == AfterClear then Parked else ClearPolling
  }

  function CpuStep(d: Design, s: State): State
    requires Enabled(s, Cpu)
  {
    match s.pc
    case Running => s.(pc := LoopTest, flags := s.flags.(polling := true))
    case LoopTest =>
      if s.flags.needResched then LeaveIdle(s) else s.(pc := AfterTest(d), masked := true)
    case PollStart =>
      if d.pollNs == 0 then s.(pc := AfterWindow(d))
      else s.(pc := PollRead, deadline := s.clock + d.pollNs, masked := false)
    case PollRead => s.(pc := if s.flags.Resched() then PollEnd else PollArm(s.flags))
    case PollArm(seen) => if s.flags == seen then s.(pc := PollWait, event := false) else s.(pc := PollClock)
    case PollWait => s.(pc := PollClock, event := false)
    case PollClock => s.(pc := if s.clock < s.deadline then PollRead else PollEnd)
    case PollEnd => s.(pc := AfterWindow(d), masked := true)
    case ClearPolling =>
      s.(pc := if d.recheck then Recheck else AfterRecheck(d), flags := s.flags.(polling := false))
    case Recheck => s.(pc := if s.flags.needResched then Unmask else AfterRecheck(d))
    case Parked => s.(pc := Unmask)
    case Unmask => s.(pc := SetPolling, masked := false)
    case SetPolling => s.(pc := LoopTest, flags := s.flags.(polling := true))
  }

  /** Out of the loop: the scheduler clears the resched bits and acts on every wakeup delivered. */
  function LeaveIdle(s: State): State {
    s.(pc := Running, flags := Flags(false, false, false),
       served := s.served + s.elided + s.landed, elided := {}, landed := {})
  }

  /** A store to the flags word clears the exclusive monitor and so ends a wait on it. */
  function Store(s: State, flags: Flags): State {
    s.(flags := flags, event := s.event || flags != s.flags)
  }

  function Apply(d: Design, s: State, step: Step): State
    requires Enabled(s, step)
  {
    match step
    case Cpu => CpuStep(d, s)
    case Take(irq) =>
      var t := s.(pending := s.pending - {irq}, event := true);
      if irq.wakes then t.(flags := t.flags.(needResched := true), landed := t.landed + {irq.id}) else t
    case Wake(stores) =>
      var t := s.(nextId := s.nextId + 1);
      if s.flags.polling then
        Store(t, t.flags.(needResched := true)).(elided := t.elided + {s.nextId})
      else
        var u := t.(sending := t.sending + {s.nextId});
        if stores then Store(u, u.flags.(needResched := true)) else u
    case SendIpi(id) => s.(sending := s.sending - {id}, pending := s.pending + {Irq(id, true)})
    case Device(wakes) => s.(nextId := s.nextId + 1, pending := s.pending + {Irq(s.nextId, wakes)})
    case StoreLazy => Store(s, s.flags.(lazy := true))
    case Kick => s.(event := true)
    case Tick => s.(clock := s.clock + 1)
  }

  /** A run: the states met and the steps taken between them. */
  ghost predicate IsRun(d: Design, states: seq<State>, steps: seq<Step>) {
    && |states| == |steps| + 1
    && states[0] == Initial()
    && forall i :: 0 <= i < |steps| ==>
         Enabled(states[i], steps[i]) && states[i + 1] == Apply(d, states[i], steps[i])
  }

  /** The designs that keep every wakeup: the flags word is tested after the bit is cleared, and nothing
      that lets an interrupt in stands between that test and the park. */
  predicate Tested(d: Design) {
    d.recheck && (d.window != AfterClear || d.pollNs == 0)
  }

  predicate InWindow(pc: Pc) {
    pc.PollStart? || pc.PollRead? || pc.PollArm? || pc.PollWait? || pc.PollClock? || pc.PollEnd?
  }

  predicate MaskedAt(pc: Pc) {
    pc.PollStart? || pc.ClearPolling? || pc.Recheck? || pc.Parked? || pc.Unmask?
  }

  predicate PollingAt(d: Design, pc: Pc) {
    pc.LoopTest? || pc.ClearPolling? || (InWindow(pc) && d.window == BeforeClear)
  }

  /** What the flags word and the mask are is a matter of where the CPU is. */
  ghost predicate Placed(d: Design, s: State) {
    && s.flags.polling == PollingAt(d, s.pc)
    && s.masked == MaskedAt(s.pc)
    && (InWindow(s.pc) ==> d.window != Absent)
  }

  /** About to park, with the flags word tested and interrupts masked since; a misplaced window of no
      length stands there for one step. */
  predicate AtPark(d: Design, pc: Pc) {
    pc.Parked? || (d.window == AfterClear && pc.PollStart?)
  }

  /** The inductive invariant behind the wakeup properties. */
  ghost predicate Inv(d: Design, s: State) {
    && Placed(d, s)
    && (d.window == AfterClear && InWindow(s.pc) ==> s.pc.PollStart?)
    && (s.elided + s.landed != {} ==> s.flags.needResched)
    && (AtPark(d, s.pc) ==> s.elided + s.landed == {})
    && (AtPark(d, s.pc) && s.flags.needResched ==> s.sending != {} || s.pending != {})
    && (s.pc.PollArm? ==> !s.pc.seen.Resched())
    && (s.pc.PollWait? && s.flags.Resched() ==> s.event)
  }

  lemma {:induction false} PlacedStep(d: Design, s: State, step: Step)
    requires Placed(d, s) && Enabled(s, step)
    ensures Placed(d, Apply(d, s, step))
  {
  }

  lemma {:induction false} InvStep(d: Design, s: State, step: Step)
    requires Tested(d) && Inv(d, s) && Enabled(s, step)
    ensures Inv(d, Apply(d, s, step))
  {
    PlacedStep(d, s, step);
  }

  lemma {:induction false} InvHolds(d: Design, states: seq<State>, steps: seq<Step>, n: nat)
    requires Tested(d) && IsRun(d, states, steps) && n < |states|
    ensures Inv(d, states[n])
  {
    if n > 0 {
      InvHolds(d, states, steps, n - 1);
      InvStep(d, states[n - 1], steps[n - 1]);
    }
  }

  lemma {:induction false} PlacedHolds(d: Design, states: seq<State>, steps: seq<Step>, n: nat)
    requires IsRun(d, states, steps) && n < |states|
    ensures Placed(d, states[n])
  {
    if n > 0 {
      PlacedHolds(d, states, steps, n - 1);
      PlacedStep(d, states[n - 1], steps[n - 1]);
    }
  }

  /** A wakeup that has been made and not yet acted on. */
  function Outstanding(s: State): set<nat> {
    s.sending + s.elided + s.landed + (set irq | irq in s.pending && irq.wakes :: irq.id)
  }

  /** Asleep for good with work to do: parked, a wakeup made or NEED_RESCHED set, and neither an
      interrupt pending nor a waker still about to send one. */
  ghost predicate LostWakeup(s: State) {
    && s.pc.Parked?
    && (Outstanding(s) != {} || s.flags.needResched)
    && s.pending == {} && s.sending == {}
  }

  /** No interleaving loses a wakeup, in any run of such a design: the patch's, the loop without a
      window, and any design with its window tuned to nothing. */
  lemma {:induction false} NoLostWakeup(d: Design, states: seq<State>, steps: seq<Step>)
    requires Tested(d) && IsRun(d, states, steps)
    ensures forall n :: 0 <= n < |states| ==> !LostWakeup(states[n])
  {
    forall n | 0 <= n < |states| ensures !LostWakeup(states[n]) {
      InvHolds(d, states, steps, n);
    }
  }

  /** One more step at the end of a run. */
  lemma {:induction false} Extend(d: Design, states: seq<State>, steps: seq<Step>, step: Step)
    requires IsRun(d, states, steps) && Enabled(states[|steps|], step)
    ensures IsRun(d, states + [Apply(d, states[|steps|], step)], steps + [step])
  {
  }

  lemma {:induction false} Then(d: Design, states: seq<State>, steps: seq<Step>, step: Step)
    returns (states': seq<State>, steps': seq<Step>)
    requires IsRun(d, states, steps) && Enabled(states[|steps|], step)
    ensures IsRun(d, states', steps') && states'[|steps'|] == Apply(d, states[|steps|], step)
  {
    Extend(d, states, steps, step);
    states', steps' := states + [Apply(d, states[|steps|], step)], steps + [step];
  }

  /** A quiet run up to the moment before the polling bit is cleared. Where there is a window before
      the clear, it is left through the lazy bit. */
  lemma {:induction false} QuietRunToClear(d: Design) returns (states: seq<State>, steps: seq<Step>)
    ensures IsRun(d, states, steps)
    ensures var s := states[|steps|]; s.pc == ClearPolling && s.flags.polling && s.pending == {} && s.sending == {}
    ensures d.window == AfterClear ==> !states[|steps|].flags.Resched()
  {
    var s := Initial();
    if d.window != BeforeClear || d.pollNs == 0 {
      var s1 := Apply(d, s, Cpu);
      var s2 := Apply(d, s1, Cpu);
      states, steps := [s, s1, s2], [Cpu, Cpu];
      if d.window == BeforeClear {
        Extend(d, states, steps, Cpu);
        states, steps := states + [Apply(d, s2, Cpu)], steps + [Cpu];
      }
    } else {
      var s1 := Apply(d, s, StoreLazy);
      var s2 := Apply(d, s1, Cpu);
      var s3 := Apply(d, s2, Cpu);
      var s4 := Apply(d, s3, Cpu);
      assert s4.pc == PollRead && s4.flags.lazy;
      var s5 := Apply(d, s4, Cpu);
      states, steps := [s, s1, s2, s3, s4, s5], [StoreLazy, Cpu, Cpu, Cpu, Cpu];
      Extend(d, states, steps, Cpu);
      states, steps := states + [Apply(d, s5, Cpu)], steps + [Cpu];
    }
  }

  /** The second test is what closes the race as the bit is cleared: without it, a waker that finds
      the bit still set just before has its wakeup lost, wherever the window is. */
  lemma {:induction false} RecheckNeeded(d: Design) returns (states: seq<State>, steps: seq<Step>)
    requires !d.recheck
    ensures IsRun(d, states, steps) && LostWakeup(states[|steps|])
  {
    states, steps := QuietRunToClear(d);
    var id := states[|steps|].nextId;
    states, steps := Then(d, states, steps, Wake(true));
    assert id in states[|steps|].elided;
    states, steps := Then(d, states, steps, Cpu);
    if d.window == AfterClear {
      states, steps := Then(d, states, steps, Cpu);
      if d.pollNs > 0 {
        states, steps := Then(d, states, steps, Cpu);
        states, steps := Then(d, states, steps, Cpu);
      }
    }
    assert id in Outstanding(states[|steps|]);
  }

  /** A window after the clear undoes the second test: an interrupt taken inside it makes its task
      runnable, and the CPU parks all the same. */
  lemma {:induction false} LateWindowLoses(d: Design) returns (states: seq<State>, steps: seq<Step>)
    requires d.recheck && d.window == AfterClear && d.pollNs > 0
    ensures IsRun(d, states, steps) && LostWakeup(states[|steps|])
  {
    states, steps := QuietRunToClear(d);
    states, steps := Then(d, states, steps, Cpu);
    states, steps := Then(d, states, steps, Cpu);
    states, steps := Then(d, states, steps, Cpu);
    var id := states[|steps|].nextId;
    states, steps := Then(d, states, steps, Device(true));
    assert states[|steps|].pending == {Irq(id, true)};
    states, steps := Then(d, states, steps, Take(Irq(id, true)));
    states, steps := Then(d, states, steps, Cpu);
    states, steps := Then(d, states, steps, Cpu);
    assert id in Outstanding(states[|steps|]);
  }

  /** All at once, for every design: no run loses a wakeup exactly when the flags word is tested after
      the clear and no window, unless it has no length, comes between that test and the park. */
  lemma {:induction false} RecheckIsExact(d: Design)
    ensures (forall states, steps :: IsRun(d, states, steps) ==> !LostWakeup(states[|steps|])) <==> Tested(d)
  {
    if Tested(d) {
      forall states, steps | IsRun(d, states, steps) ensures !LostWakeup(states[|steps|]) {
        NoLostWakeup(d, states, steps);
      }
    } else if !d.recheck {
      var states, steps := RecheckNeeded(d);
    } else {
      var states, steps := LateWindowLoses(d);
    }
  }

  /* ----- elided IPIs ----- */

  lemma {:induction false} StaysKnown(d: Design, states: seq<State>, steps: seq<Step>, i: nat, j: nat, id: nat)
    requires Tested(d) && IsRun(d, states, steps) && i <= j < |states|
    requires id in states[i].elided + states[i].served
    ensures id in states[j].elided + states[j].served
    decreases j - i
  {
    if i < j {
      StaysKnown(d, states, steps, i, j - 1, id);
    }
  }

  /** A wakeup is served only on the way out of the loop, by a test that saw NEED_RESCHED. */
  lemma {:induction false} ServedByObserving(d: Design, s: State, step: Step)
    requires Enabled(s, step)
    ensures Apply(d, s, step).served != s.served ==>
              step == Cpu && s.pc.LoopTest? && s.flags.needResched
  {
  }

  /** The step by which a wakeup came to be served. */
  lemma {:induction false} ServedWhen(d: Design, states: seq<State>, steps: seq<Step>, i: nat, j: nat, id: nat)
    returns (k: nat)
    requires IsRun(d, states, steps) && i <= j < |states|
    requires id !in states[i].served && id in states[j].served
    ensures i <= k < j && steps[k] == Cpu && states[k].pc.LoopTest? && states[k].flags.needResched
    ensures id !in states[k].served && id in states[k + 1].served
    decreases j - i
  {
    if id in states[i + 1].served {
      k := i;
      ServedByObserving(d, states[i], steps[i]);
    } else {
      k := ServedWhen(d, states, steps, i + 1, j, id);
    }
  }

  ghost predicate AllBelow(ids: set<nat>, n: nat) {
    forall id :: id in ids ==> id < n
  }

  /** Whatever is on record has been given a number. */
  ghost predicate Numbered(s: State) {
    && AllBelow(s.sending, s.nextId) && AllBelow(s.elided, s.nextId)
    && AllBelow(s.landed, s.nextId) && AllBelow(s.served, s.nextId)
    && forall irq :: irq in s.pending ==> irq.id < s.nextId
  }

  lemma {:induction false} NumberedStep(d: Design, s: State, step: Step)
    requires Numbered(s) && Enabled(s, step)
    ensures Numbered(Apply(d, s, step))
  {
  }

  lemma {:induction false} NumberedHolds(d: Design, states: seq<State>, steps: seq<Step>, n: nat)
    requires IsRun(d, states, steps) && n < |states|
    ensures Numbered(states[n])
    ensures states[n].nextId !in states[n].served && states[n].nextId !in states[n].sending
  {
    if n > 0 {
      NumberedHolds(d, states, steps, n - 1);
      NumberedStep(d, states[n - 1], steps[n - 1]);
    }
    NextIsNew(states[n]);
  }

  lemma {:induction false} NextIsNew(s: State)
    requires Numbered(s)
    ensures s.nextId !in s.served && s.nextId !in s.sending
  {
    assert s.nextId in s.served ==> s.nextId < s.nextId;
    assert s.nextId in s.sending ==> s.nextId < s.nextId;
  }

  /** Every elided IPI is repaid: when a waker has taken the polling path, then before the CPU next
      parks, whatever happens in between, a test of its loop sees NEED_RESCHED and the scheduler acts
      on that very wakeup. */
  lemma {:induction false} ElisionRepaid(d: Design, states: seq<State>, steps: seq<Step>, i: nat, j: nat)
    returns (k: nat)
    requires Tested(d) && IsRun(d, states, steps) && i < j < |states|
    requires steps[i].Wake? && states[i].flags.polling
    requires states[j].pc.Parked?
    ensures i < k < j && steps[k] == Cpu && states[k].pc.LoopTest? && states[k].flags.needResched
    ensures states[i].nextId !in states[k].served && states[i].nextId in states[k + 1].served
    ensures states[i].nextId in states[j].served
  {
    var id := states[i].nextId;
    NumberedHolds(d, states, steps, i);
    assert id in states[i + 1].elided && id !in states[i + 1].served;
    StaysKnown(d, states, steps, i + 1, j, id);
    InvHolds(d, states, steps, j);
    k := ServedWhen(d, states, steps, i + 1, j, id);
  }

  predicate Elides(d: Design, s: State, stores: bool) {
    Apply(d, s, Wake(stores)).sending == s.sending
  }

  /** Where a waker elides its IPI, exactly and in every design: at the loop test, inside a window before
      the clear, and up to the clear itself. So the window adds every point of itself to what the flag
      alone elides; and from a poll after the clear, or from the park, no waker ever does. */
  lemma {:induction false} WhereElisionHappens(d: Design, states: seq<State>, steps: seq<Step>, n: nat, stores: bool)
    requires IsRun(d, states, steps) && n < |states|
    ensures Elides(d, states[n], stores) <==> PollingAt(d, states[n].pc)
  {
    PlacedHolds(d, states, steps, n);
    NumberedHolds(d, states, steps, n);
    var s := states[n];
    if !s.flags.polling {
      assert s.nextId in Apply(d, s, Wake(stores)).sending && s.nextId !in s.sending;
    }
  }

  /* ----- interrupts ----- */

  /** The window hands the mask back as it found it and lets every interrupt in between: masked on
      the way in and out, open at each point where the CPU can sleep. */
  lemma {:induction false} WindowMask(d: Design, states: seq<State>, steps: seq<Step>, n: nat)
    requires IsRun(d, states, steps) && n < |states|
    ensures InWindow(states[n].pc) ==> (states[n].masked <==> states[n].pc.PollStart?)
    ensures states[n].pc == ClearPolling || states[n].pc == Parked ==> states[n].masked
  {
    PlacedHolds(d, states, steps, n);
  }

  /* ----- progress ----- */

  /** The idle CPU's own moves: an unmasked pending interrupt comes first. */
  ghost predicate OwnStep(s: State, step: Step) {
    Enabled(s, step)
    && (step.Take? || (step.Cpu? && (s.masked || s.pending == {})))
  }

  function PcRank(d: Design, pc: Pc): nat {
    match pc
    case LoopTest => 1
    case SetPolling => 2
    case Running => 3
    case Unmask => 3
    case Parked => 4
    case Recheck => 6
    case ClearPolling => 7
    case PollEnd => 8
    case PollRead => 9
    case PollClock => 10
    case PollWait => 11
    case PollArm(_) => 12
    case PollStart => if d.window == AfterClear then 5 else 13
  }

  function Rank(d: Design, s: State): nat {
    14 * |s.pending| + PcRank(d, s.pc)
  }

  ghost predicate Owing(d: Design, s: State) {
    Inv(d, s) && s.sending == {} && Outstanding(s) != {}
  }

  /** With a wakeup outstanding and delivered, the CPU can always move by itself, even when it is
      asleep. */
  lemma {:induction false} NeverStuck(d: Design, s: State) returns (step: Step)
    requires Tested(d) && Owing(d, s)
    ensures OwnStep(s, step)
  {
    if !s.masked && s.pending != {} {
      var irq :| irq in s.pending;
      step := Take(irq);
    } else {
      step := Cpu;
      if s.pending == {} {
        assert s.elided + s.landed != {};
      }
    }
  }

  /** ... and each of its moves either serves everything outstanding or comes closer to it. */
  lemma {:induction false} OwnStepProgress(d: Design, s: State, step: Step)
    requires Tested(d) && Owing(d, s) && OwnStep(s, step)
    ensures var t := Apply(d, s, step);
            || Outstanding(s) <= t.served
            || (Rank(d, t) < Rank(d, s) && Outstanding(t) == Outstanding(s) && Owing(d, t))
  {
    InvStep(d, s, step);
    if step.Take? {
      TakeProgress(d, s, step.irq);
    } else {
      CpuProgress(d, s);
    }
  }

  lemma {:induction false} TakeProgress(d: Design, s: State, irq: Irq)
    requires Enabled(s, Take(irq)) && Placed(d, s)
    ensures var t := Apply(d, s, Take(irq));
            Rank(d, t) < Rank(d, s) && Outstanding(t) == Outstanding(s) && t.sending == s.sending
  {
    assert |s.pending - {irq}| == |s.pending| - 1;
  }

  lemma {:induction false} CpuProgress(d: Design, s: State)
    requires Tested(d) && Owing(d, s) && OwnStep(s, Cpu)
    ensures var t := CpuStep(d, s);
            if s.pc.LoopTest? && s.flags.needResched then Outstanding(s) <= t.served
            else PcRank(d, t.pc) < PcRank(d, s.pc) && t.pending == s.pending
                 && Outstanding(t) == Outstanding(s) && t.sending == {}
  {
    if s.pending == {} {
      assert s.elided + s.landed != {};
    }
  }

  /** A wakeup made is a wakeup acted on: left to itself, the CPU serves everything outstanding
      within Rank(d, s) of its own steps, from any state a run can reach. */
  lemma {:induction false} WakeupServed(d: Design, s: State) returns (steps: seq<Step>, states: seq<State>)
    requires Tested(d) && Owing(d, s)
    ensures |steps| <= Rank(d, s) && |states| == |steps| + 1 && states[0] == s
    ensures forall i :: 0 <= i < |steps| ==>
              OwnStep(states[i], steps[i]) && states[i + 1] == Apply(d, states[i], steps[i])
    ensures Outstanding(s) <= states[|steps|].served
    decreases Rank(d, s)
  {
    var step := NeverStuck(d, s);
    OwnStepProgress(d, s, step);
    var t := Apply(d, s, step);
    if Outstanding(s) <= t.served {
      steps, states := [step], [s, t];
    } else {
      var steps', states' := WakeupServed(d, t);
      steps, states := [step] + steps', [s] + states';
    }
  }
}
