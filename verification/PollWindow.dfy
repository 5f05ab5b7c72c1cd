/** The poll window itself, arch_cpu_idle_poll_window(): how long it can last and what ends it. */
module PollWindow {

  /** The flags word; `rest` stands for the bits the loop does not look at. */
  datatype Word = Word(needResched: bool, lazy: bool, rest: nat) {
    predicate Resched() { needResched || lazy }
  }

  /** What the polling CPU meets as time passes, in nanoseconds: the flags word at each instant,
      when interrupts arrive, and when a wait begun at an instant on a value ends, with interrupts
      open or masked. */
  datatype World = World(word: nat -> Word, irq: nat -> bool, wakes: (nat, Word, bool) -> nat)

  /** Waits end by themselves within `kick` of their start (the event stream), at the first
      instant the word has another value, and with interrupts open at the first interrupt. */
  ghost predicate Waits(w: World, kick: nat) {
    && (forall t: nat, seen, open :: t < w.wakes(t, seen, open) <= t + kick)
    && (forall t: nat, seen, open, u: nat :: t < u && w.word(u) != seen ==> w.wakes(t, seen, open) <= u)
    && (forall t: nat, seen, u: nat :: t < u && w.irq(u) ==> w.wakes(t, seen, true) <= u)
  }

  /** local_clock() and the deadline are 64-bit. */
  const CLOCK_RANGE: nat := 0x1_0000_0000_0000_0000

  function Deadline(now: nat, pollNs: nat): nat {
    (now + pollNs) % CLOCK_RANGE
  }

  /** When a turn that starts at `now` leaves the loop; `open` is the interrupt mask, inverted. */
  ghost function Exit(w: World, kick: nat, now: nat, deadline: nat, open: bool): (t: nat)
    requires Waits(w, kick)
    decreases deadline - now
  {
    if w.word(now).Resched() then now
    else
      var woken := w.wakes(now, w.word(now), open);
      if woken < deadline then Exit(w, kick, woken, deadline, open) else woken
  }

  class IdleCpu {
    const world: World
    const pollNs: nat
    var clock: nat
    var masked: bool
    /** Every instant at which the loop looked at the flags word. */
    ghost var looks: seq<nat>

    constructor (world: World, pollNs: nat, clock: nat)
      ensures this.world == world && this.pollNs == pollNs && this.clock == clock
      ensures masked && looks == []
    {
      this.world, this.pollNs, this.clock := world, pollNs, clock;
      masked, looks := true, [];
    }

    /** __cmpwait_relaxed on the flags word: time passes until the wait ends. */
    method CmpWait(seen: Word)
      requires world.word(clock) == seen
      modifies this`clock
      ensures clock == world.wakes(old(clock), seen, !masked)
    {
      clock := world.wakes(clock, seen, !masked);
    }

    /** arch_cpu_idle_poll_window(). Interrupts are open during the whole poll and masked again
        afterwards; the clock ends where Exit says. */
    method PollWindow(ghost kick: nat)
      requires Waits(world, kick) && masked
      modifies this
      ensures masked
      ensures pollNs == 0 ==> clock == old(clock) && looks == old(looks)
      ensures pollNs != 0 ==> clock == Exit(world, kick, old(clock), Deadline(old(clock), pollNs), true)
      ensures old(looks) <= looks
      ensures forall i :: |old(looks)| <= i < |looks| - 1 ==> !world.word(looks[i]).Resched()
    {
      if pollNs == 0 {
        return;
      }
      var deadline := Deadline(clock, pollNs);
      ghost var start, first := clock, |looks|;
      masked := false;
      var again := true;
      while again
        invariant !masked && |looks| >= first && old(looks) <= looks
        invariant forall i :: first <= i < |looks| ==> again ==> !world.word(looks[i]).Resched()
        invariant forall i :: first <= i < |looks| - 1 ==> !world.word(looks[i]).Resched()
        invariant Exit(world, kick, start, deadline, true)
               == if again then Exit(world, kick, clock, deadline, true) else clock
        decreases again, deadline - clock
      {
        looks := looks + [clock];
        var flags := world.word(clock);
        if flags.Resched() {
          break;
        }
        CmpWait(flags);
        again := clock < deadline;
      }
      masked := true;
    }
  }

  /** The window ends at the very first instant a resched bit is in the word: nothing before its
      exit had one, and it ends before the deadline for no other reason. */
  lemma {:induction false} ExitAtFirstBit(w: World, kick: nat, now: nat, deadline: nat, open: bool)
    requires Waits(w, kick)
    ensures var t := Exit(w, kick, now, deadline, open);
            && now <= t
            && (forall u :: now <= u < t ==> !w.word(u).Resched())
            && (t < deadline ==> w.word(t).Resched())
    decreases deadline - now
  {
    if !w.word(now).Resched() {
      var woken := w.wakes(now, w.word(now), open);
      forall u | now < u < woken ensures w.word(u) == w.word(now) {
      }
      if woken < deadline {
        ExitAtFirstBit(w, kick, woken, deadline, open);
      }
    }
  }

  /** The event stream bounds the overshoot: no later than its period past the last instant inside
      the window. */
  lemma {:induction false} ExitBounded(w: World, kick: nat, now: nat, deadline: nat, open: bool)
    requires Waits(w, kick)
    ensures Exit(w, kick, now, deadline, open) <= (if now < deadline then deadline - 1 else now) + kick
    decreases deadline - now
  {
    if !w.word(now).Resched() {
      var woken := w.wakes(now, w.word(now), open);
      if woken < deadline {
        ExitBounded(w, kick, woken, deadline, open);
      }
    }
  }

  /** How long the window lasts, for every tunable: up to idle_poll_ns plus a period when the sum
      fits the clock, and no less unless a resched bit ended it; and a single wait when it wraps. */
  lemma {:induction false} WindowBounded(w: World, kick: nat, now: nat, pollNs: nat)
    requires Waits(w, kick) && 0 < pollNs < CLOCK_RANGE && now < CLOCK_RANGE
    ensures var t := Exit(w, kick, now, Deadline(now, pollNs), true);
            && t - now <= (if now + pollNs < CLOCK_RANGE then pollNs - 1 else 0) + kick
            && (now + pollNs < CLOCK_RANGE && t < now + pollNs ==> w.word(t).Resched())
  {
    ExitBounded(w, kick, now, Deadline(now, pollNs), true);
    ExitAtFirstBit(w, kick, now, Deadline(now, pollNs), true);
  }

  /** An interrupt during an open window ends the wait it meets at once: the loop looks at the word
      at that instant, or has left the window by then. */
  lemma {:induction false} InterruptSeen(w: World, kick: nat, now: nat, deadline: nat, u: nat)
    requires Waits(w, kick) && now < u && w.irq(u)
    ensures var t := Exit(w, kick, now, deadline, true);
            t <= u || Exit(w, kick, now, deadline, true) == Exit(w, kick, u, deadline, true)
    decreases deadline - now
  {
    if !w.word(now).Resched() {
      var woken := w.wakes(now, w.word(now), true);
      if woken < deadline && woken < u {
        InterruptSeen(w, kick, woken, deadline, u);
      }
    }
  }

  /** Why the poll may not run masked: a masked wait can sleep through an interrupt that an open
      one would have ended on, and with the event stream slower than the window it is woken only
      by the next kick, past the deadline. */
  lemma {:induction false} MaskedWindowOversleeps(kick: nat, pollNs: nat, irqAt: nat)
    requires 0 < irqAt < pollNs < kick && pollNs < CLOCK_RANGE
    ensures exists w: World :: Waits(w, kick) && w.irq(irqAt)
              && w.wakes(0, w.word(0), true) == irqAt
              && Exit(w, kick, 0, Deadline(0, pollNs), false) == kick > Deadline(0, pollNs)
  {
    var idle := Word(false, false, 0);
    var w := World(
      t => idle,
      t => t == irqAt,
      (t, seen, open) =>
        if seen != idle then t + 1
        else if open && t < irqAt && irqAt <= t + kick then irqAt
        else t + kick);
    assert Waits(w, kick);
    assert w.wakes(0, idle, false) == kick;
    assert w.irq(irqAt);
  }
}
