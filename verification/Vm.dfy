/** internal/vm: one virtual machine, driven by the state notifications of the framework. */
module Vm {
  import opened Wrappers
  import opened Status

  datatype State = Stopped | Running | Paused | Error | Starting | Pausing | Resuming | Stopping | Saving | Restoring

  datatype WaitResult = PoweredOff | RunError | Cancelled | StillWaiting

  /** Position of the first of `notes` that `stop` holds of, or |notes|. */
  function FirstOf(notes: seq<State>, stop: State -> bool): (k: nat)
    ensures k <= |notes|
    ensures k < |notes| ==> stop(notes[k])
    ensures forall i :: 0 <= i < k ==> !stop(notes[i])
  {
    if notes == [] || stop(notes[0]) then 0 else 1 + FirstOf(notes[1..], stop)
  }

  predicate EndsStart(s: State) { s == Running || s == Error || s == Stopped }

  predicate EndsWait(s: State) { s == Stopped || s == Error }

  function Cut(notes: seq<State>, n: nat): (r: seq<State>)
    ensures r <= notes
  {
    if n < |notes| then notes[..n] else notes
  }

  /** What is heard before a cancellation, if one comes. */
  function Heard(notes: seq<State>, cancel: Option<nat>): (r: seq<State>)
    ensures r <= notes
  {
    if cancel.Some? then Cut(notes, cancel.value) else notes
  }

  /** Start's deadline fires once `deadline` notifications are handled, or when no more come. How
      many it takes, and whether it reports success. */
  function StartTakes(notes: seq<State>, deadline: nat): (n: nat)
    ensures n <= |notes|
  {
    var seen := Cut(notes, deadline);
    var k := FirstOf(seen, EndsStart);
    if k < |seen| then k + 1 else k
  }

  function StartOk(notes: seq<State>, deadline: nat, atDeadline: State): bool {
    var seen := Cut(notes, deadline);
    var k := FirstOf(seen, EndsStart);
    if k < |seen| then seen[k] == Running else atDeadline == Running
  }

  /** What Wait answers, when the context is cancelled after `cancel` notifications, if at all. */
  function WaitAnswer(notes: seq<State>, cancel: Option<nat>): WaitResult {
    var seen := Heard(notes, cancel);
    var k := FirstOf(seen, EndsWait);
    if k < |seen| then (if seen[k] == Stopped then PoweredOff else RunError)
    else if cancel.Some? then Cancelled
    else StillWaiting
  }

  function WaitTakes(notes: seq<State>, cancel: Option<nat>): (n: nat)
    ensures n <= |notes|
  {
    var seen := Heard(notes, cancel);
    var k := FirstOf(seen, EndsWait);
    if k < |seen| then k + 1 else k
  }

  class Machine {
    /** What the framework answers when asked for the state. */
    var state: State
    /** The notifications still to come, in order; the framework's future. */
    var notes: seq<State>

    constructor (state: State, notes: seq<State>)
      ensures this.state == state && this.notes == notes
    {
      this.state, this.notes := state, notes;
    }

    /** Start. `atDeadline` is the state asked for if the deadline comes first. */
    method Start(booted: bool, deadline: nat, atDeadline: State) returns (ok: bool)
      modifies this`notes
      ensures ok <==> booted && StartOk(old(notes), deadline, atDeadline)
      ensures booted ==> notes == old(notes)[StartTakes(old(notes), deadline)..]
      ensures !booted ==> notes == old(notes)
    {
      if !booted {
        return false;
      }
      ghost var all := Cut(notes, deadline);
      var handled := 0;
      while true
        invariant handled <= |all|
        invariant notes == old(notes)[handled..]
        invariant forall i :: 0 <= i < handled ==> !EndsStart(all[i])
        decreases |all| - handled
      {
        ghost var k := FirstOf(all, EndsStart);
        if handled == deadline || notes == [] {
          return atDeadline == Running;
        }
        var s := notes[0];
        assert s == all[handled];
        notes := notes[1..];
        handled := handled + 1;
        if s == Running {
          return true;
        }
        if s == Error || s == Stopped {
          return false;
        }
      }
    }

    /** Stop. */
    method Stop(canStop: bool, stops: bool) returns (ok: bool)
      modifies this`state
      ensures ok <==> old(state) == Stopped || !canStop || stops
      ensures state == if old(state) == Stopped || (canStop && stops) then Stopped else old(state)
    {
      ok := true;
      if state == Stopped {
        return;
      }
      if canStop {
        if !stops {
          return false;
        }
        state := Stopped;
      }
    }

    /** Wait. Cancellation hard-stops the machine; without one, and with no terminal notification to
        come, it waits for ever. */
    method Wait(cancel: Option<nat>, canStop: bool, stops: bool) returns (r: WaitResult)
      modifies this
      ensures r == WaitAnswer(old(notes), cancel)
      ensures notes == old(notes)[WaitTakes(old(notes), cancel)..]
      ensures state == if r == Cancelled && canStop && stops then Stopped else old(state)
    {
      ghost var all := Heard(notes, cancel);
      var handled := 0;
      while true
        invariant handled <= |all|
        invariant notes == old(notes)[handled..] && state == old(state)
        invariant forall i :: 0 <= i < handled ==> !EndsWait(all[i])
        decreases |all| - handled
      {
        ghost var k := FirstOf(all, EndsWait);
        if cancel.Some? && (handled == cancel.value || notes == []) {
          var stopped := Stop(canStop, stops);
          return Cancelled;
        }
        if notes == [] {
          return StillWaiting;
        }
        var s := notes[0];
        assert s == all[handled];
        notes := notes[1..];
        handled := handled + 1;
        if s == Stopped {
          return PoweredOff;
        }
        if s == Error {
          return RunError;
        }
      }
    }
  }

  /** boot's environment: what Start, Wait and the guest do. */
  datatype Fate = Fate(booted: bool, deadline: nat, atDeadline: State, cancel: Option<nat>, canStop: bool, stops: bool)

  /** How boot ends: an error, a status read, or never. */
  datatype BootResult = Failed | Status(code: int) | Hangs

  function BootAnswer(notes: seq<State>, f: Fate, file: Option<string>): BootResult {
    if !f.booted || !StartOk(notes, f.deadline, f.atDeadline) then Failed
    else match WaitAnswer(notes[StartTakes(notes, f.deadline)..], f.cancel)
      case StillWaiting => Hangs
      case PoweredOff => if ReadStatus(file).Code? then Status(ReadStatus(file).code) else Failed
      case _ => Failed
  }

  /** boot: start, wait for power-off, read the status. A machine that started is stopped on the way
      out, if it can be; one that failed to start is left as it is. */
  method Boot(machine: Machine, f: Fate, file: Option<string>) returns (r: BootResult)
    modifies machine
    ensures r == BootAnswer(old(machine.notes), f, file)
    ensures var started := f.booted && StartOk(old(machine.notes), f.deadline, f.atDeadline);
            machine.state == if started && r != Hangs && f.canStop && f.stops then Stopped else old(machine.state)
  {
    var up := machine.Start(f.booted, f.deadline, f.atDeadline);
    if !up {
      return Failed;
    }
    var w := machine.Wait(f.cancel, f.canStop, f.stops);
    if w == StillWaiting {
      return Hangs;
    }
    r := Failed;
    if w == PoweredOff {
      match ReadStatus(file) {
        case Code(c) => r := Status(c);
        case _ =>
      }
    }
    var stopped := machine.Stop(f.canStop, f.stops);
  }

  /** After `n` notifications the machine is up: the last of them is Running, in time and the first that
      decides; or none of them decides and they are all there is before the deadline, at which the
      machine is found running. */
  ghost predicate CameUp(notes: seq<State>, f: Fate, n: nat) {
    || (0 < n <= |notes| && n <= f.deadline && notes[n - 1] == Running
        && forall i :: 0 <= i < n - 1 ==> notes[i] !in {Running, Error, Stopped})
    || ((n == f.deadline <= |notes| || n == |notes| < f.deadline) && f.atDeadline == Running
        && forall i :: 0 <= i < n ==> notes[i] !in {Running, Error, Stopped})
  }

  /** Notification `j` reports power-off to a Wait that began after `n`: neither a stop nor an error lies
      between, and no cancellation comes before it. */
  ghost predicate OffAt(notes: seq<State>, f: Fate, n: nat, j: nat) {
    && n <= j < |notes| && notes[j] == Stopped
    && (forall i :: n <= i < j ==> notes[i] !in {Stopped, Error})
    && (f.cancel.Some? ==> j - n < f.cancel.value)
  }

  lemma {:induction false} UpIff(notes: seq<State>, f: Fate, n: nat)
    ensures CameUp(notes, f, n) <==>
              StartOk(notes, f.deadline, f.atDeadline) && n == StartTakes(notes, f.deadline)
  {
    var seen := Cut(notes, f.deadline);
    var k := FirstOf(seen, EndsStart);
    assert forall i :: 0 <= i < |seen| ==> seen[i] == notes[i];
    if CameUp(notes, f, n) && 0 < n <= f.deadline && n <= |notes| {
      assert n - 1 < |seen|;
    }
  }

  lemma {:induction false} OffIff(notes: seq<State>, f: Fate, n: nat, j: nat)
    requires n <= j && n <= |notes|
    ensures OffAt(notes, f, n, j) <==>
              WaitAnswer(notes[n..], f.cancel) == PoweredOff && j - n == FirstOf(Heard(notes[n..], f.cancel), EndsWait)
  {
    var rest := notes[n..];
    var heard := Heard(rest, f.cancel);
    assert forall i :: 0 <= i < |heard| ==> heard[i] == rest[i] == notes[n + i];
    if OffAt(notes, f, n, j) {
      assert j - n < |heard| && EndsWait(heard[j - n]);
      assert forall i :: 0 <= i < j - n ==> !EndsWait(heard[i]);
    } else if WaitAnswer(rest, f.cancel) == PoweredOff && j - n == FirstOf(heard, EndsWait) {
      forall i | n <= i < j ensures !EndsWait(notes[i]) {
        assert notes[i] == heard[i - n];
      }
    }
  }

  /** When boot returns a code, exactly: the machine came up and then reported power-off, before any
      error or cancellation, and the status file reads as that code. */
  lemma {:induction false} CodeReadIff(notes: seq<State>, f: Fate, file: Option<string>, code: int)
    ensures BootAnswer(notes, f, file) == Status(code) <==>
              && f.booted && (exists n: nat, j: nat :: CameUp(notes, f, n) && OffAt(notes, f, n, j))
              && ReadStatus(file) == Code(code)
  {
    var n := StartTakes(notes, f.deadline);
    var j := n + FirstOf(Heard(notes[n..], f.cancel), EndsWait);
    UpIff(notes, f, n);
    OffIff(notes, f, n, j);
    if n', j': nat :| CameUp(notes, f, n') && OffAt(notes, f, n', j') {
      UpIff(notes, f, n');
      OffIff(notes, f, n', j');
    }
  }
}
