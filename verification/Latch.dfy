/** The countdown latch: `cdl_signal` decrements under the mutex and broadcasts after releasing it; `cdl_wait`
    waits in a loop for the counter to be at most zero. Any number of threads signal and wait. */
module Latch {
  import opened Threads

  class LatchObject {
    var counter: int

    constructor (initial: int)
      ensures counter == initial
    {
      counter := initial;
    }

    /** The critical section of `cdl_signal`; the caller broadcasts afterwards exactly when told to. */
    method Signal() returns (toComplete: bool)
      modifies this
      ensures counter == SignalSpec(old(counter)).0
      ensures toComplete == SignalSpec(old(counter)).1
    {
      toComplete := false;
      counter := counter - 1;
      if counter == 0 {
        toComplete := true;
      }
    }

    /** The loop condition of `cdl_wait`. */
    method MustWait() returns (wait: bool)
      ensures wait == MustWaitSpec(counter)
    {
      wait := counter > 0;
    }
  }

  /** The new counter, and whether the caller now owes the broadcast. */
  function SignalSpec(counter: int): (int, bool) {
    (counter - 1, counter - 1 == 0)
  }

  predicate MustWaitSpec(counter: int) {
    counter > 0
  }

  /** `Owing` has left the critical section of `cdl_signal` and not yet broadcast; `Awake` is in `cdl_wait`,
      about to test the counter; `Blocked` is on the condition variable. */
  datatype Pc = Idle | Owing | Awake | Blocked

  /** `initial`, `signals`, `broadcasts` and `passes` record the history. */
  datatype State = State(counter: int, pcs: seq<Pc>, initial: int, signals: nat, broadcasts: nat, passes: nat)

  datatype Step = Signal(t: nat) | Broadcast(t: nat) | EnterWait(t: nat) | Check(t: nat) | SpuriousWake(t: nat)

  predicate IsStart(s: State) {
    && s.counter == s.initial && s.signals == s.broadcasts == s.passes == 0
    && (forall t :: 0 <= t < |s.pcs| ==> s.pcs[t] == Idle)
  }

  predicate Enabled(s: State, step: Step) {
    && step.t < |s.pcs|
    && match step
       case Signal(t) => s.pcs[t] == Idle
       case Broadcast(t) => s.pcs[t] == Owing
       case EnterWait(t) => s.pcs[t] == Idle
       case Check(t) => s.pcs[t] == Awake
       case SpuriousWake(t) => s.pcs[t] == Blocked
  }

  function WakeUp(pc: Pc): Pc {
    if pc == Blocked then Awake else pc
  }

  function Apply(s: State, step: Step): State
    requires Enabled(s, step)
  {
    match step
    case Signal(t) =>
      var (counter, owing) := SignalSpec(s.counter);
      s.(counter := counter, pcs := if owing then s.pcs[t := Owing] else s.pcs, signals := s.signals + 1)
    case Broadcast(t) => s.(pcs := Map(s.pcs[t := Idle], WakeUp), broadcasts := s.broadcasts + 1)
    case EnterWait(t) => s.(pcs := s.pcs[t := Awake])
    case Check(t) =>
      if MustWaitSpec(s.counter) then s.(pcs := s.pcs[t := Blocked])
      else s.(pcs := s.pcs[t := Idle], passes := s.passes + 1)
    case SpuriousWake(t) => s.(pcs := s.pcs[t := Awake])
  }

  ghost predicate Run(s: State, steps: seq<Step>, s': State)
    decreases |steps|
  {
    if steps == [] then s == s' else Enabled(s, steps[0]) && Run(Apply(s, steps[0]), steps[1..], s')
  }

  predicate IsOwing(pc: Pc) { pc == Owing }
  predicate IsBlocked(pc: Pc) { pc == Blocked }
  predicate IsAwake(pc: Pc) { pc == Awake }

  ghost predicate Inv(s: State) {
    && s.counter == s.initial - s.signals
    && Count(s.pcs, IsOwing) + s.broadcasts == (if 0 < s.initial <= s.signals then 1 else 0)
    && (s.counter <= 0 && Count(s.pcs, IsBlocked) > 0 ==> Count(s.pcs, IsOwing) > 0)
    && (s.passes > 0 ==> s.counter <= 0)
    && (s.initial <= 0 ==> Count(s.pcs, IsBlocked) == 0)
  }

  lemma StartInv(s: State)
    requires IsStart(s)
    ensures Inv(s)
  {
    CountNone(s.pcs, IsOwing);
    CountNone(s.pcs, IsBlocked);
  }

  /** The effect of moving one thread on every count used here. */
  lemma Moved(pcs: seq<Pc>, t: nat, pc: Pc)
    requires t < |pcs|
    ensures forall p :: p in [IsOwing, IsBlocked, IsAwake] ==>
              Count(pcs[t := pc], p) == Count(pcs, p) - (if p(pcs[t]) then 1 else 0) + (if p(pc) then 1 else 0)
  {
    CountUpdate(pcs, t, pc, IsOwing);
    CountUpdate(pcs, t, pc, IsBlocked);
    CountUpdate(pcs, t, pc, IsAwake);
  }

  lemma BroadcastCounts(pcs: seq<Pc>)
    ensures Count(Map(pcs, WakeUp), IsBlocked) == 0
    ensures Count(Map(pcs, WakeUp), IsOwing) == Count(pcs, IsOwing)
    ensures Count(Map(pcs, WakeUp), IsAwake) == Count(pcs, IsAwake) + Count(pcs, IsBlocked)
  {
    CountNone(Map(pcs, WakeUp), IsBlocked);
    CountMap(pcs, WakeUp, IsOwing, IsOwing);
    CountMap(pcs, WakeUp, IsAwake, IsInside);
    CountDisjoint(pcs, IsAwake, IsBlocked, IsInside);
  }

  predicate IsInside(pc: Pc) { pc == Awake || pc == Blocked }

  lemma StepKeepsInv(s: State, step: Step)
    requires Inv(s) && Enabled(s, step)
    ensures Inv(Apply(s, step))
  {
    var t := step.t;
    match step
    case Broadcast(_) =>
      Moved(s.pcs, t, Idle);
      BroadcastCounts(s.pcs[t := Idle]);
    case _ =>
      Moved(s.pcs, t, Apply(s, step).pcs[t]);
      assert Apply(s, step).pcs == s.pcs[t := Apply(s, step).pcs[t]];
  }

  lemma {:induction false} RunKeepsInv(s: State, steps: seq<Step>, s': State)
    requires Inv(s) && Run(s, steps, s')
    ensures Inv(s')
    ensures s'.initial == s.initial && s'.counter <= s.counter && s'.passes >= s.passes && |s'.pcs| == |s.pcs|
    decreases |steps|
  {
    if steps != [] {
      StepKeepsInv(s, steps[0]);
      RunKeepsInv(Apply(s, steps[0]), steps[1..], s');
    }
  }

  /** Safety over every run, whatever the initial count. */
  lemma LatchSafety(s: State, steps: seq<Step>, s': State)
    requires IsStart(s) && Run(s, steps, s')
    // one broadcast in all, owed or made, from the moment the last expected signal arrives
    ensures Count(s'.pcs, IsOwing) + s'.broadcasts == if 0 < s.initial <= s'.signals then 1 else 0
    // `cdl_wait` has returned to nobody before the count was exhausted
    ensures s'.passes > 0 ==> s'.signals >= s.initial
    // a thread still blocked after that is one that the pending broadcast will wake
    ensures s'.signals >= s.initial && Blocked in s'.pcs ==> Owing in s'.pcs
  {
    StartInv(s);
    RunKeepsInv(s, steps, s');
    CountNone(s'.pcs, IsBlocked);
    CountNone(s'.pcs, IsOwing);
  }

  /** The test in `cdl_wait` lets a caller go exactly when all the signals counted on have been made. */
  lemma CheckPassesExactly(s: State, steps: seq<Step>, s': State, t: nat)
    requires IsStart(s) && Run(s, steps, s') && t < |s'.pcs| && s'.pcs[t] == Awake
    ensures Apply(s', Check(t)).pcs[t] == Idle <==> s'.signals >= s.initial
  {
    StartInv(s);
    RunKeepsInv(s, steps, s');
  }

  // ----- Every waiter is let go -----

  /** Steps left before nobody owes, waits or is about to test the counter, once that is exhausted. */
  function Pending(s: State): nat {
    Count(s.pcs, IsOwing) + 2 * Count(s.pcs, IsBlocked) + Count(s.pcs, IsAwake)
  }

  /** Once the count is exhausted each step of a thread inside the latch brings `Pending` down. */
  lemma PendingDecreases(s: State, step: Step)
    requires Inv(s) && s.counter <= 0 && Enabled(s, step)
    requires step.Broadcast? || step.Check? || step.SpuriousWake?
    ensures Pending(Apply(s, step)) < Pending(s)
  {
    Moved(s.pcs, step.t, if step.Broadcast? then Idle else Apply(s, step).pcs[step.t]);
    if step.Broadcast? {
      BroadcastCounts(s.pcs[step.t := Idle]);
    }
  }

  /** As long as a thread is inside the exhausted latch, one that is not blocked is: no waiter is stranded. */
  lemma NoWaiterIsStranded(s: State)
    requires Inv(s) && s.counter <= 0
    ensures Pending(s) > 0 ==> exists t :: 0 <= t < |s.pcs| && (s.pcs[t] == Owing || s.pcs[t] == Awake)
    ensures Pending(s) == 0 <==> forall t :: 0 <= t < |s.pcs| ==> s.pcs[t] == Idle
  {
    CountNone(s.pcs, IsOwing);
    CountNone(s.pcs, IsBlocked);
    CountNone(s.pcs, IsAwake);
  }

  /** No step leaves everything as it was: a wait begins, a wake-up wakes. */
  lemma EveryStepMoves(s: State, step: Step)
    requires Enabled(s, step)
    ensures Apply(s, step) != s
  {
    if !step.Signal? {
      assert Apply(s, step).pcs[step.t] != s.pcs[step.t];
    }
  }

  /** A wait may return at any time, with the counter as it was. */
  lemma AnyWaitMayReturn(s: State, t: nat)
    requires t < |s.pcs| && s.pcs[t] == Blocked
    ensures Enabled(s, SpuriousWake(t)) && Apply(s, SpuriousWake(t)) == s.(pcs := s.pcs[t := Awake])
  {
  }
}
