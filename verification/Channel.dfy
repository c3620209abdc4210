/** The synchronised channel over the byte ring: any number of producers and consumers, two condition variables, and
    single signals sent after the lock is released. */
module Channel {
  import opened Threads
  import Ring

  type Item = Ring.Item

  /** `Ready` threads are about to take the lock and test the loop condition, on entry or after a wake-up; `Blocked`
      ones wait on hasSpace or hasItems; the last two have unlocked and not yet signalled. */
  datatype Pc =
    | Idle
    | PutReady(item: Item) | PutBlocked(item: Item)
    | GetReady | GetBlocked
    | SignallingItems | SignallingSpace

  /** `puts` and `gots` record the items in the order of the critical sections that moved them. */
  datatype State = State(ring: Ring.Ring, pcs: seq<Pc>, puts: seq<Item>, gots: seq<Item>)

  datatype Step =
    | CallPut(t: nat, item: Item) | CallGet(t: nat)
    | PutCheck(t: nat) | GetCheck(t: nat)
    | SignalItems(t: nat, target: nat) | SignalSpace(t: nat, target: nat)
    | SpuriousWake(t: nat)

  predicate IsStart(s: State) {
    && Ring.Valid(s.ring) && s.ring.size == 0
    && (forall t :: 0 <= t < |s.pcs| ==> s.pcs[t] == Idle)
    && s.puts == s.gots == []
  }

  predicate PutIsBlocked(pc: Pc) { pc.PutBlocked? }
  predicate GetIsBlocked(pc: Pc) { pc == GetBlocked }

  predicate Enabled(s: State, step: Step) {
    && step.t < |s.pcs|
    && match step
       case CallPut(t, item) => s.pcs[t] == Idle && |item| == s.ring.elemSize
       case CallGet(t) => s.pcs[t] == Idle
       case PutCheck(t) => s.pcs[t].PutReady? && Ring.Valid(s.ring) && |s.pcs[t].item| == s.ring.elemSize
       case GetCheck(t) => s.pcs[t] == GetReady && Ring.Valid(s.ring)
       // a signal wakes one thread blocked on its condition variable, whichever, or nobody if none is
       case SignalItems(t, target) =>
         && s.pcs[t] == SignallingItems
         && (SomeBlocked(s.pcs, GetIsBlocked) ==> target < |s.pcs| && GetIsBlocked(s.pcs[target]))
       case SignalSpace(t, target) =>
         && s.pcs[t] == SignallingSpace
         && (SomeBlocked(s.pcs, PutIsBlocked) ==> target < |s.pcs| && PutIsBlocked(s.pcs[target]))
       case SpuriousWake(t) => s.pcs[t].PutBlocked? || s.pcs[t] == GetBlocked
  }

  predicate SomeBlocked(pcs: seq<Pc>, p: Pc -> bool) {
    exists t :: 0 <= t < |pcs| && p(pcs[t])
  }

  function Woken(pc: Pc): Pc {
    match pc
    case PutBlocked(item) => PutReady(item)
    case GetBlocked => GetReady
    case _ => pc
  }

  function Signal(pcs: seq<Pc>, t: nat, target: nat, p: Pc -> bool): seq<Pc>
    requires t < |pcs| && !p(pcs[t]) && (SomeBlocked(pcs, p) ==> target < |pcs|)
  {
    if SomeBlocked(pcs, p) then pcs[t := Idle][target := Woken(pcs[target])] else pcs[t := Idle]
  }

  function Apply(s: State, step: Step): State
    requires Enabled(s, step)
  {
    match step
    case CallPut(t, item) => s.(pcs := s.pcs[t := PutReady(item)])
    case CallGet(t) => s.(pcs := s.pcs[t := GetReady])
    case PutCheck(t) =>
      var item := s.pcs[t].item;
      if s.ring.size == s.ring.capacity then s.(pcs := s.pcs[t := PutBlocked(item)])
      else s.(ring := Ring.PutSpec(s.ring, item), pcs := s.pcs[t := SignallingItems], puts := s.puts + [item])
    case GetCheck(t) =>
      if s.ring.size == 0 then s.(pcs := s.pcs[t := GetBlocked])
      else s.(ring := Ring.GetSpec(s.ring), pcs := s.pcs[t := SignallingSpace],
              gots := s.gots + [Ring.Slot(s.ring, s.ring.iget)])
    case SignalItems(t, target) => s.(pcs := Signal(s.pcs, t, target, GetIsBlocked))
    case SignalSpace(t, target) => s.(pcs := Signal(s.pcs, t, target, PutIsBlocked))
    case SpuriousWake(t) => s.(pcs := s.pcs[t := Woken(s.pcs[t])])
  }

  ghost predicate Run(s: State, steps: seq<Step>, s': State)
    decreases |steps|
  {
    if steps == [] then s == s' else Enabled(s, steps[0]) && Run(Apply(s, steps[0]), steps[1..], s')
  }

  // ----- The invariant -----

  /** A pending signal on hasItems, or a getter that is awake. */
  predicate ServesGetters(pc: Pc) { pc == SignallingItems || pc == GetReady }

  /** A pending signal on hasSpace, or a putter that is awake. */
  predicate ServesPutters(pc: Pc) { pc == SignallingSpace || pc.PutReady? }

  ghost predicate FifoInv(s: State) {
    && Ring.Valid(s.ring)
    && s.puts == s.gots + Ring.Contents(s.ring)
    && (forall t :: 0 <= t < |s.pcs| && (s.pcs[t].PutReady? || s.pcs[t].PutBlocked?) ==>
          |s.pcs[t].item| == s.ring.elemSize)
  }

  /** While a getter is blocked the items are covered by threads that serve getters, and while a putter is blocked
      the free slots by threads that serve putters. */
  ghost predicate Covered(size: int, capacity: int, pcs: seq<Pc>) {
    && (Count(pcs, GetIsBlocked) > 0 ==> size <= Count(pcs, ServesGetters))
    && (Count(pcs, PutIsBlocked) > 0 ==> capacity - size <= Count(pcs, ServesPutters))
  }

  ghost predicate WakeInv(s: State) {
    Covered(s.ring.size, s.ring.capacity, s.pcs)
  }

  ghost predicate Inv(s: State) {
    FifoInv(s) && WakeInv(s)
  }

  lemma StartInv(s: State)
    requires IsStart(s)
    ensures Inv(s)
  {
    CountNone(s.pcs, GetIsBlocked);
    CountNone(s.pcs, PutIsBlocked);
  }

  lemma StepKeepsFifo(s: State, step: Step)
    requires Inv(s) && Enabled(s, step)
    ensures FifoInv(Apply(s, step))
  {
    match step
    case PutCheck(t) =>
      if s.ring.size < s.ring.capacity {
        Ring.PutAppends(s.ring, s.pcs[t].item);
      }
    case GetCheck(_) =>
      if s.ring.size > 0 {
        Ring.GetRemovesFirst(s.ring);
      }
    case _ =>
  }

  /** The effect of moving one thread on the four counts of the invariant. */
  lemma Moved(pcs: seq<Pc>, t: nat, pc: Pc)
    requires t < |pcs|
    ensures Count(pcs[t := pc], GetIsBlocked)
         == Count(pcs, GetIsBlocked) - Value(GetIsBlocked(pcs[t])) + Value(GetIsBlocked(pc))
    ensures Count(pcs[t := pc], PutIsBlocked)
         == Count(pcs, PutIsBlocked) - Value(PutIsBlocked(pcs[t])) + Value(PutIsBlocked(pc))
    ensures Count(pcs[t := pc], ServesGetters)
         == Count(pcs, ServesGetters) - Value(ServesGetters(pcs[t])) + Value(ServesGetters(pc))
    ensures Count(pcs[t := pc], ServesPutters)
         == Count(pcs, ServesPutters) - Value(ServesPutters(pcs[t])) + Value(ServesPutters(pc))
  {
    CountUpdate(pcs, t, pc, GetIsBlocked);
    CountUpdate(pcs, t, pc, PutIsBlocked);
    CountUpdate(pcs, t, pc, ServesGetters);
    CountUpdate(pcs, t, pc, ServesPutters);
  }

  function Value(b: bool): int { if b then 1 else 0 }

  /** A signal on hasItems: the signaller stops counting, and if a getter was blocked, one is awake instead. */
  lemma SignalItemsCounts(pcs: seq<Pc>, t: nat, target: nat)
    requires t < |pcs| && pcs[t] == SignallingItems
    requires SomeBlocked(pcs, GetIsBlocked) ==> target < |pcs| && GetIsBlocked(pcs[target])
    ensures var after := Signal(pcs, t, target, GetIsBlocked);
            && Count(after, PutIsBlocked) == Count(pcs, PutIsBlocked)
            && Count(after, ServesPutters) == Count(pcs, ServesPutters)
            && (Count(after, GetIsBlocked) > 0 ==>
                  Count(pcs, GetIsBlocked) > 0 && Count(after, ServesGetters) == Count(pcs, ServesGetters))
  {
    ItemsSignallerLeaves(pcs, t);
    if SomeBlocked(pcs, GetIsBlocked) {
      GetterWakes(pcs[t := Idle], target);
    } else {
      CountNone(pcs, GetIsBlocked);
    }
  }

  lemma ItemsSignallerLeaves(pcs: seq<Pc>, t: nat)
    requires t < |pcs| && pcs[t] == SignallingItems
    ensures var after := pcs[t := Idle];
            && Count(after, PutIsBlocked) == Count(pcs, PutIsBlocked)
            && Count(after, ServesPutters) == Count(pcs, ServesPutters)
            && Count(after, GetIsBlocked) == Count(pcs, GetIsBlocked)
            && Count(after, ServesGetters) == Count(pcs, ServesGetters) - 1
  {
    Moved(pcs, t, Idle);
  }

  lemma GetterWakes(pcs: seq<Pc>, t: nat)
    requires t < |pcs| && pcs[t] == GetBlocked
    ensures var after := pcs[t := GetReady];
            && Count(after, PutIsBlocked) == Count(pcs, PutIsBlocked)
            && Count(after, ServesPutters) == Count(pcs, ServesPutters)
            && Count(after, GetIsBlocked) == Count(pcs, GetIsBlocked) - 1
            && Count(after, ServesGetters) == Count(pcs, ServesGetters) + 1
  {
    Moved(pcs, t, GetReady);
  }

  lemma SignalSpaceCounts(pcs: seq<Pc>, t: nat, target: nat)
    requires t < |pcs| && pcs[t] == SignallingSpace
    requires SomeBlocked(pcs, PutIsBlocked) ==> target < |pcs| && PutIsBlocked(pcs[target])
    ensures var after := Signal(pcs, t, target, PutIsBlocked);
            && Count(after, GetIsBlocked) == Count(pcs, GetIsBlocked)
            && Count(after, ServesGetters) == Count(pcs, ServesGetters)
            && (Count(after, PutIsBlocked) > 0 ==>
                  Count(pcs, PutIsBlocked) > 0 && Count(after, ServesPutters) == Count(pcs, ServesPutters))
  {
    CountNone(pcs, PutIsBlocked);
    Moved(pcs, t, Idle);
    if SomeBlocked(pcs, PutIsBlocked) {
      Moved(pcs[t := Idle], target, Woken(pcs[target]));
    }
  }

  lemma OneThreadMoves(size: int, capacity: int, pcs: seq<Pc>, t: nat, size': int, pc: Pc)
    requires Covered(size, capacity, pcs) && t < |pcs| && 0 <= size <= capacity
    requires match (pcs[t], pc)
             case (Idle, PutReady(_)) => size' == size
             case (Idle, GetReady) => size' == size
             case (PutReady(_), PutBlocked(_)) => size' == size == capacity
             case (PutReady(_), SignallingItems) => size' == size + 1
             case (GetReady, GetBlocked) => size' == size == 0
             case (GetReady, SignallingSpace) => size' == size - 1
             case (PutBlocked(_), PutReady(_)) => size' == size
             case (GetBlocked, GetReady) => size' == size
             case (_, _) => false
    ensures Covered(size', capacity, pcs[t := pc])
  {
    Moved(pcs, t, pc);
  }

  lemma StepKeepsWake(s: State, step: Step)
    requires Inv(s) && Enabled(s, step)
    ensures WakeInv(Apply(s, step))
  {
    var t, s' := step.t, Apply(s, step);
    match step
    case SignalItems(_, target) => SignalItemsCounts(s.pcs, t, target);
    case SignalSpace(_, target) => SignalSpaceCounts(s.pcs, t, target);
    case _ =>
      OneThreadMoves(s.ring.size, s.ring.capacity, s.pcs, t, s'.ring.size, s'.pcs[t]);
      assert s'.pcs == s.pcs[t := s'.pcs[t]];
  }

  lemma {:induction false} RunKeepsInv(s: State, steps: seq<Step>, s': State)
    requires Inv(s) && Run(s, steps, s')
    ensures Inv(s') && s'.ring.capacity == s.ring.capacity && s'.ring.elemSize == s.ring.elemSize
    decreases |steps|
  {
    if steps != [] {
      StepKeepsFifo(s, steps[0]);
      StepKeepsWake(s, steps[0]);
      RunKeepsInv(Apply(s, steps[0]), steps[1..], s');
    }
  }

  // ----- What the channel promises -----

  /** Byte for byte and in order: what was put is what was got followed by what the ring holds, which is never more
      than its capacity and never leaves its bytes. */
  lemma ChannelIsFifo(s: State, steps: seq<Step>, s': State)
    requires IsStart(s) && Run(s, steps, s')
    ensures Ring.Valid(s'.ring) && s'.puts == s'.gots + Ring.Contents(s'.ring)
    ensures |s'.puts| - |s'.gots| == s'.ring.size <= s.ring.capacity
    ensures |s'.ring.buf| == s.ring.capacity * s.ring.elemSize
  {
    StartInv(s);
    RunKeepsInv(s, steps, s');
  }

  /** No lost wake-up: while a getter is blocked every item in the ring is matched by a pending signal or an awake
      getter, and while a putter is blocked so is every free slot. */
  lemma NoLostWakeUp(s: State, steps: seq<Step>, s': State)
    requires IsStart(s) && Run(s, steps, s')
    ensures GetBlocked in s'.pcs ==> s'.ring.size <= Count(s'.pcs, ServesGetters)
    ensures SomeBlocked(s'.pcs, PutIsBlocked) ==> s'.ring.capacity - s'.ring.size <= Count(s'.pcs, ServesPutters)
  {
    StartInv(s);
    RunKeepsInv(s, steps, s');
    CountNone(s'.pcs, GetIsBlocked);
    CountNone(s'.pcs, PutIsBlocked);
  }

  /** Nobody is awake and no signal is pending. */
  predicate Quiet(s: State) {
    forall t :: 0 <= t < |s.pcs| ==> s.pcs[t] == Idle || s.pcs[t].PutBlocked? || s.pcs[t] == GetBlocked
  }

  lemma QuietCover(s: State)
    requires Inv(s) && Quiet(s)
    ensures GetBlocked in s.pcs ==> s.ring.size == 0
    ensures SomeBlocked(s.pcs, PutIsBlocked) ==> s.ring.size == s.ring.capacity
  {
    CountNone(s.pcs, GetIsBlocked);
    CountNone(s.pcs, PutIsBlocked);
    CountNone(s.pcs, ServesGetters);
    CountNone(s.pcs, ServesPutters);
  }

  /** When all is quiet, getters wait only on an empty ring and putters only on a full one. */
  lemma QuietMeansEmptyOrFull(s: State, steps: seq<Step>, s': State)
    requires IsStart(s) && Run(s, steps, s') && Quiet(s')
    ensures GetBlocked in s'.pcs ==> s'.ring.size == 0
    ensures SomeBlocked(s'.pcs, PutIsBlocked) ==> s'.ring.size == s'.ring.capacity
  {
    StartInv(s);
    RunKeepsInv(s, steps, s');
    QuietCover(s');
  }

  predicate Deadlocked(s: State) {
    Quiet(s) && GetBlocked in s.pcs && SomeBlocked(s.pcs, PutIsBlocked)
  }

  /** Producers and consumers can all be stuck together exactly when the capacity is zero. */
  lemma DeadlockExactlyAtZeroCapacity(s: State)
    requires IsStart(s) && |s.pcs| >= 2
    ensures (exists steps, s' :: Run(s, steps, s') && Deadlocked(s')) <==> s.ring.capacity == 0
  {
    if s.ring.capacity == 0 {
      var steps, s' := ReachDeadlock(s);
      assert Run(s, steps, s') && Deadlocked(s');
      assert exists steps, s' :: Run(s, steps, s') && Deadlocked(s');
    } else {
      forall steps, s' | Run(s, steps, s')
        ensures !Deadlocked(s')
      {
        if Deadlocked(s') {
          StartInv(s);
          RunKeepsInv(s, steps, s');
          QuietMeansEmptyOrFull(s, steps, s');
        }
      }
    }
  }

  lemma ReachDeadlock(s: State) returns (steps: seq<Step>, s': State)
    requires IsStart(s) && |s.pcs| >= 2 && s.ring.capacity == 0
    ensures Run(s, steps, s') && Deadlocked(s')
  {
    var item: Item := seq(s.ring.elemSize, _ => 0);
    steps := [CallPut(0, item), PutCheck(0), CallGet(1), GetCheck(1)];
    var s1 := Apply(s, steps[0]);
    var s2 := Apply(s1, steps[1]);
    var s3 := Apply(s2, steps[2]);
    s' := Apply(s3, steps[3]);
    assert s'.pcs[0] == PutBlocked(item) && s'.pcs[1] == GetBlocked;
    assert steps[3..][1..] == [] && Run(s3, steps[3..], s');
    assert steps[2..][1..] == steps[3..] && Run(s2, steps[2..], s');
    assert steps[1..][1..] == steps[2..] && Run(s1, steps[1..], s');
  }

  /** No step leaves everything as it was: a call begins, a wake-up wakes. */
  lemma EveryStepMoves(s: State, step: Step)
    requires Enabled(s, step)
    ensures Apply(s, step) != s
  {
    assert Apply(s, step).pcs[step.t] != s.pcs[step.t];
  }

  /** A wait may return at any time, with its condition as false as before. */
  lemma AnyWaitMayReturn(s: State, t: nat)
    requires t < |s.pcs| && (s.pcs[t].PutBlocked? || s.pcs[t] == GetBlocked)
    ensures Enabled(s, SpuriousWake(t))
    ensures var s' := Apply(s, SpuriousWake(t));
            s'.ring == s.ring && s'.pcs[t] == if s.pcs[t] == GetBlocked then GetReady else PutReady(s.pcs[t].item)
  {
  }
}
