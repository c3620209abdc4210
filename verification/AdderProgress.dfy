/** When the parallel adder returns: a bound on the steps that bring it forward, and the exact condition under which it
    can still come to its end. */
module AdderProgress {
  import opened Threads
  import opened Adder
  import Pool
  import Latch

  // ----- The measure -----

  /** More than any one work item can cost once a worker has taken it. */
  function ItemCost(s: State): nat { |s.v| + 12 }

  /** `k` times `c`. */
  function Times(c: nat, k: nat): nat {
    if k == 0 then 0 else Times(c, k - 1) + c
  }

  lemma {:induction false} TimesSum(c: nat, a: nat, b: nat)
    ensures Times(c, a + b) == Times(c, a) + Times(c, b)
  {
    if b > 0 {
      TimesSum(c, a, b - 1);
    }
  }

  lemma {:induction false} TimesNext(c: nat, k: nat)
    ensures Times(c + 1, k) == Times(c, k) + k
  {
    if k > 0 {
      TimesNext(c, k - 1);
    }
  }

  function PoolMeasure(p: Pool.State, cost: nat): nat {
    Times(cost, |p.sh.queue|) + Count(p.workers, Pool.IsChecking) + 2 * Count(p.workers, Pool.IsRunning)
      + Count(p.workers, Pool.IsHolding) + 2 * Count(p.clients, Pool.IsSignalling)
      + if p.sh.inShutdown then 0 else Times(cost + 1, |p.workers|)
  }

  function PhaseWeight(size: nat): Phase -> int {
    (p: Phase) => match p
                  case Working(curr, _) => (if curr < size then size - curr else 0) + 8
                  case Stored => 6
                  case _ => 0
  }

  function LatchWeight(pc: Latch.Pc): int {
    match pc case Owing => 3 case Awake => 1 case _ => 0
  }

  function PhasePart(s: State): nat {
    TotalZero(s.phases, PhaseWeight(|s.v|));
    Total(s.phases, PhaseWeight(|s.v|))
  }

  function LatchPart(s: State): nat {
    TotalZero(s.latch.pcs, LatchWeight);
    Total(s.latch.pcs, LatchWeight)
  }

  function MainPart(s: State): nat {
    match s.main
    case Submitting(i) => (if i < Parts(s) then Times(ItemCost(s) + 4, Parts(s) - i) else 0) + Parts(s) + 4
    case Waiting => Parts(s) + 1
    case Reading(k, _) => if k < Parts(s) then Parts(s) - k else 0
  }

  function Measure(s: State): nat {
    PoolMeasure(s.pool, ItemCost(s)) + PhasePart(s) + LatchPart(s) + MainPart(s)
  }

  // ----- What a step costs -----

  /** What a pool step may add to the measure of the pool. */
  function PoolChange(p: Pool.State, step: Pool.Step, cost: nat): int
    requires Pool.Enabled(p, step)
  {
    match step
    case WorkerCheck(_) => if p.sh.queue == [] then -1 else 1 - cost
    case WorkerFinish(_) => -1
    case WorkerRetire(_) => -1
    case Signal(_, _) => -1
    case WorkerSpurious(_) => 1
    case Submit(_) => cost + 2
    case _ => 0
  }

  lemma WorkerChange(p: Pool.State, step: Pool.Step, cost: nat)
    requires Pool.Enabled(p, step) && Pool.IsWorkerStep(step)
    ensures PoolMeasure(Pool.Apply(p, step), cost) <= PoolMeasure(p, cost) + PoolChange(p, step, cost)
  {
    var p' := Pool.Apply(p, step);
    Pool.ClientsAfter(p, step, Pool.IsSignalling);
    CountUpdate(p.workers, step.w, p'.workers[step.w], Pool.IsChecking);
    CountUpdate(p.workers, step.w, p'.workers[step.w], Pool.IsRunning);
    CountUpdate(p.workers, step.w, p'.workers[step.w], Pool.IsHolding);
  }

  lemma SignalChange(p: Pool.State, step: Pool.Step, cost: nat)
    requires Pool.Enabled(p, step) && step.Signal?
    ensures PoolMeasure(Pool.Apply(p, step), cost) <= PoolMeasure(p, cost) + PoolChange(p, step, cost)
  {
    Pool.ClientsAfter(p, step, Pool.IsSignalling);
    if Pool.Blocked in p.workers {
      CountUpdate(p.workers, step.target, Pool.Checking, Pool.IsChecking);
      CountUpdate(p.workers, step.target, Pool.Checking, Pool.IsRunning);
      CountUpdate(p.workers, step.target, Pool.Checking, Pool.IsHolding);
    }
  }

  predicate IsReady(pc: Pool.WorkerPc) { pc == Pool.Checking || pc == Pool.Blocked }

  /** The broadcast of a shutdown wakes no more workers than there are. */
  lemma BroadcastWakes(workers: seq<Pool.WorkerPc>)
    ensures Count(Map(workers, Pool.WakeWorker), Pool.IsChecking) <= Count(workers, Pool.IsChecking) + |workers|
  {
    CountMap(workers, Pool.WakeWorker, Pool.IsChecking, IsReady);
    CountDisjoint(workers, Pool.IsChecking, Pool.IsBlocked, IsReady);
  }

  lemma ShutdownChange(p: Pool.State, step: Pool.Step, cost: nat)
    requires Pool.Enabled(p, step) && step.Shutdown? && !p.sh.inShutdown && p.sh.nthreads == |p.workers|
    ensures PoolMeasure(Pool.Apply(p, step), cost) <= PoolMeasure(p, cost)
  {
    Pool.ClientsAfter(p, step, Pool.IsSignalling);
    Pool.WorkersAfter(p, step, Pool.IsRunning);
    Pool.WorkersAfter(p, step, Pool.IsHolding);
    BroadcastWakes(p.workers);
    PillsCost(p, step, cost);
  }

  lemma PillsCost(p: Pool.State, step: Pool.Step, cost: nat)
    requires Pool.Enabled(p, step) && step.Shutdown? && !p.sh.inShutdown && p.sh.nthreads == |p.workers|
    ensures Times(cost, |Pool.Apply(p, step).sh.queue|) + |p.workers|
         == Times(cost, |p.sh.queue|) + Times(cost + 1, |p.workers|)
  {
    TimesSum(cost, |p.sh.queue|, |p.workers|);
    TimesNext(cost, |p.workers|);
    assert |Pool.Apply(p, step).sh.queue| == |p.sh.queue| + |p.workers|;
  }

  lemma ClientChange(p: Pool.State, step: Pool.Step, cost: nat)
    requires p.sh.nthreads == |p.workers| && Pool.Enabled(p, step) && !Pool.IsWorkerStep(step) && !step.Signal?
    ensures PoolMeasure(Pool.Apply(p, step), cost) <= PoolMeasure(p, cost) + PoolChange(p, step, cost)
  {
    Pool.ClientsAfter(p, step, Pool.IsSignalling);
    if step.Shutdown? && !p.sh.inShutdown {
      ShutdownChange(p, step, cost);
    }
  }

  lemma PoolChanges(p: Pool.State, step: Pool.Step, cost: nat)
    requires p.sh.nthreads == |p.workers| && Pool.Enabled(p, step)
    ensures PoolMeasure(Pool.Apply(p, step), cost) <= PoolMeasure(p, cost) + PoolChange(p, step, cost)
  {
    if Pool.IsWorkerStep(step) {
      WorkerChange(p, step, cost);
    } else if step.Signal? {
      SignalChange(p, step, cost);
    } else {
      ClientChange(p, step, cost);
    }
  }

  /** What a step other than one of progress may add: as much as one more work item. */
  function Allowance(s: State, step: Step): int {
    if IsProgress(step) then -1 else ItemCost(s) + 2
  }

  lemma CheckBound(s: State, p: Pool.Step)
    requires Enabled(s, InPool(p)) && p.WorkerCheck?
    ensures PhasePart(Apply(s, InPool(p))) <= PhasePart(s) + if s.pool.sh.queue == [] then 0 else |s.v| + 8
  {
    TotalUpdate(s.phases, p.w, Apply(s, InPool(p)).phases[p.w], PhaseWeight(|s.v|));
  }

  lemma PoolStepBound(s: State, p: Pool.Step)
    requires s.pool.sh.nthreads == |s.pool.workers| && Enabled(s, InPool(p))
    ensures Measure(Apply(s, InPool(p))) <= Measure(s) + Allowance(s, InPool(p))
  {
    var s' := Apply(s, InPool(p));
    PoolChanges(s.pool, p, ItemCost(s));
    assert PoolMeasure(s'.pool, ItemCost(s')) <= PoolMeasure(s.pool, ItemCost(s)) + PoolChange(s.pool, p, ItemCost(s));
    assert LatchPart(s') == LatchPart(s) && MainPart(s') == MainPart(s);
    if p.WorkerCheck? {
      CheckBound(s, p);
    } else {
      assert PhasePart(s') == PhasePart(s);
    }
  }

  lemma WorkerStepBound(s: State, step: Step)
    requires Enabled(s, step) && (step.AddElement? || step.StoreResult?)
    ensures Measure(Apply(s, step)) <= Measure(s) - 1
  {
    TotalUpdate(s.phases, step.w, Apply(s, step).phases[step.w], PhaseWeight(|s.v|));
  }

  lemma SignalLatchBound(s: State, w: nat)
    requires Enabled(s, SignalLatch(w))
    ensures Measure(Apply(s, SignalLatch(w))) <= Measure(s) - 1
  {
    var s' := Apply(s, SignalLatch(w));
    assert s'.pool == s.pool && MainPart(s') == MainPart(s);
    TotalUpdate(s.phases, w, Signalled, PhaseWeight(|s.v|));
    assert PhasePart(s') == PhasePart(s) - 6;
    SignalChangesLatch(s.latch, w);
  }

  lemma SignalChangesLatch(l: Latch.State, w: nat)
    requires Latch.Enabled(l, Latch.Signal(w))
    ensures Total(Latch.Apply(l, Latch.Signal(w)).pcs, LatchWeight) <= Total(l.pcs, LatchWeight) + 3
  {
    TotalUpdate(l.pcs, w, Latch.Owing, LatchWeight);
  }

  /** Only the adder's own thread, `me`, can be blocked on the latch. */
  lemma BroadcastChange(pcs: seq<Latch.Pc>, w: nat, me: nat)
    requires w < |pcs| && me < |pcs| && w != me && pcs[w] == Latch.Owing
    requires forall u :: 0 <= u < |pcs| && u != me ==> pcs[u] != Latch.Blocked
    ensures Total(Map(pcs[w := Latch.Idle], Latch.WakeUp), LatchWeight) < Total(pcs, LatchWeight)
  {
    var quiet := pcs[w := Latch.Idle];
    TotalUpdate(pcs, w, Latch.Idle, LatchWeight);
    TotalUpdate(quiet, me, Latch.WakeUp(quiet[me]), LatchWeight);
    assert Map(quiet, Latch.WakeUp) == quiet[me := Latch.WakeUp(quiet[me])];
  }

  lemma BroadcastBound(s: State, w: nat)
    requires ShapeInv(s) && LatchInv(s) && Enabled(s, BroadcastLatch(w))
    ensures Measure(Apply(s, BroadcastLatch(w))) <= Measure(s) - 1
  {
    BroadcastChange(s.latch.pcs, w, Workers(s));
    assert LatchPart(Apply(s, BroadcastLatch(w))) < LatchPart(s);
  }

  lemma MainSubmitBound(s: State)
    requires s.pool.sh.nthreads == |s.pool.workers| && Enabled(s, MainSubmit)
    ensures Measure(Apply(s, MainSubmit)) <= Measure(s) - 1
  {
    var s' := Apply(s, MainSubmit);
    PoolChanges(s.pool, Pool.Submit(MAIN_CLIENT), ItemCost(s));
    assert PhasePart(s') == PhasePart(s) && LatchPart(s') == LatchPart(s);
    var cost, left := ItemCost(s) + 4, Parts(s) - s.main.i;
    assert Times(cost, left) == Times(cost, left - 1) + cost;
  }

  lemma MainLatchBound(s: State, step: Step)
    requires Enabled(s, step) && (step.MainEnterWait? || step.MainCheck? || step.MainSpurious?)
    ensures Measure(Apply(s, step)) <= Measure(s) + Allowance(s, step)
  {
    var s' := Apply(s, step);
    TotalUpdate(s.latch.pcs, Workers(s), s'.latch.pcs[Workers(s)], LatchWeight);
    assert s'.latch.pcs == s.latch.pcs[Workers(s) := s'.latch.pcs[Workers(s)]];
  }

  /** Progress brings the measure down, and anything else raises it by no more than one work item costs. */
  lemma StepBound(s: State, step: Step)
    requires Inv(s) && Enabled(s, step)
    ensures Measure(Apply(s, step)) <= Measure(s) + Allowance(s, step)
    ensures ItemCost(Apply(s, step)) == ItemCost(s)
  {
    match step
    case InPool(p) => PoolStepBound(s, p);
    case AddElement(_) => WorkerStepBound(s, step);
    case StoreResult(_) => WorkerStepBound(s, step);
    case SignalLatch(w) => SignalLatchBound(s, w);
    case BroadcastLatch(w) => BroadcastBound(s, w);
    case MainSubmit => MainSubmitBound(s);
    case MainRead =>
    case _ => MainLatchBound(s, step);
  }

  function ProgressSteps(steps: seq<Step>): nat {
    if steps == [] then 0 else (if IsProgress(steps[0]) then 1 else 0) + ProgressSteps(steps[1..])
  }

  function OtherSteps(steps: seq<Step>): nat {
    if steps == [] then 0 else (if IsProgress(steps[0]) then 0 else 1) + OtherSteps(steps[1..])
  }

  /** In any run at all the steps of progress are bounded by the measure and the number of other steps: new calls by
      clients and spurious wake-ups. So they cannot go on for ever unless those do. */
  lemma {:induction false} ProgressIsBounded(s: State, steps: seq<Step>, s': State)
    requires Inv(s) && Run(s, steps, s')
    ensures ProgressSteps(steps) + Measure(s') <= Measure(s) + Times(ItemCost(s) + 2, OtherSteps(steps))
    decreases |steps|
  {
    if steps != [] {
      StepBound(s, steps[0]);
      StepKeepsInv(s, steps[0]);
      ProgressIsBounded(Apply(s, steps[0]), steps[1..], s');
      BoundsAdd(s, steps);
    }
  }

  lemma BoundsAdd(s: State, steps: seq<Step>)
    requires steps != []
    ensures ProgressSteps(steps) - ProgressSteps(steps[1..]) + Allowance(s, steps[0])
         <= Times(ItemCost(s) + 2, OtherSteps(steps)) - Times(ItemCost(s) + 2, OtherSteps(steps[1..]))
  {
    OneTimeMore(ItemCost(s) + 2, OtherSteps(steps[1..]));
  }

  lemma OneTimeMore(c: nat, k: nat)
    ensures Times(c, k + 1) == Times(c, k) + c
  {
  }

  // ----- When the adder can come to its end -----

  /** Every segment offered so far has been accepted, and if some are left the pool still accepts. */
  predicate Unrefused(s: State) {
    && (forall i :: 0 <= i < Offered(s) ==> Segment(i) in s.jobs)
    && (Offered(s) < Parts(s) ==> !s.pool.sh.inShutdown)
  }

  predicate Finished(s: State) {
    s.main.Reading? && s.main.k == Parts(s)
  }

  predicate MainClientInv(s: State) {
    && |s.pool.clients| > 0
    && (s.pool.clients[MAIN_CLIENT] == Pool.Idle || s.pool.clients[MAIN_CLIENT] == Pool.Signalling)
  }

  lemma StepKeepsMainClient(s: State, step: Step)
    requires MainClientInv(s) && Enabled(s, step)
    ensures MainClientInv(Apply(s, step))
  {
  }

  ghost predicate Good(s: State) {
    Inv(s) && FinishedInv(s) && MainClientInv(s)
  }

  lemma StepKeepsGood(s: State, step: Step)
    requires Good(s) && Enabled(s, step)
    ensures Good(Apply(s, step)) && Workers(Apply(s, step)) == Workers(s)
  {
    StepKeepsInv(s, step);
    StepKeepsFinished(s, step);
    StepKeepsMainClient(s, step);
  }

  lemma {:induction false} RunKeepsGood(s: State, steps: seq<Step>, s': State)
    requires Good(s) && Run(s, steps, s')
    ensures Good(s') && Workers(s') == Workers(s)
    decreases |steps|
  {
    if steps != [] {
      StepKeepsGood(s, steps[0]);
      RunKeepsGood(Apply(s, steps[0]), steps[1..], s');
    }
  }

  /** Unless the sum is finished some thread can bring it forward. */
  lemma SomebodyGoesOn(s: State)
    requires Good(s) && Workers(s) > 0 && Unrefused(s) && !Finished(s)
    ensures exists step :: IsProgress(step) && Enabled(s, step)
  {
    match s.main
    case Waiting => WaitingAdderIsServed(s);
    case Reading(_, _) => assert Enabled(s, MainRead);
    case Submitting(i) =>
      if s.pool.clients[MAIN_CLIENT] == Pool.Signalling {
        SignallerGoesOn(s, MAIN_CLIENT);
      } else if i < Parts(s) {
        assert Enabled(s, MainSubmit);
      } else {
        assert Enabled(s, MainEnterWait);
      }
  }

  lemma ProgressKeepsUnrefused(s: State, step: Step)
    requires ShapeInv(s) && Unrefused(s) && Enabled(s, step) && IsProgress(step)
    ensures Unrefused(Apply(s, step))
  {
  }

  /** Steps of progress, whichever are chosen, lead to the end. */
  lemma {:induction false} FinishSum(s: State) returns (steps: seq<Step>, s': State)
    requires Good(s) && Workers(s) > 0 && Unrefused(s)
    ensures Run(s, steps, s') && Finished(s')
    decreases Measure(s)
  {
    if Finished(s) {
      steps, s' := [], s;
    } else {
      SomebodyGoesOn(s);
      var step :| IsProgress(step) && Enabled(s, step);
      StepBound(s, step);
      StepKeepsGood(s, step);
      ProgressKeepsUnrefused(s, step);
      var rest;
      rest, s' := FinishSum(Apply(s, step));
      steps := [step] + rest;
      assert steps[1..] == rest;
    }
  }

  /** A segment that the pool refuses stays refused. */
  lemma RefusalLasts(s: State, step: Step)
    requires ShapeInv(s) && JobsInv(s) && !Unrefused(s) && Enabled(s, step)
    ensures !Unrefused(Apply(s, step))
  {
    var s' := Apply(s, step);
    if i :| 0 <= i < Offered(s) && Segment(i) !in s.jobs {
      assert Segment(i) !in s'.jobs;
    } else if step == MainSubmit {
      assert Segment(s.main.i) !in s'.jobs;
    }
  }

  lemma FinishedIsUnrefused(s: State)
    requires Inv(s) && Finished(s)
    ensures Unrefused(s) && Parts(s) > 0 && true in s.signalled
  {
    AllSignalled(s);
    assert s.signalled[0];
  }

  lemma {:induction false} RefusedNeverFinishes(s: State, steps: seq<Step>, s': State)
    requires Inv(s) && !Unrefused(s) && Run(s, steps, s')
    ensures !Finished(s')
    decreases |steps|
  {
    if steps == [] {
      if Finished(s) {
        FinishedIsUnrefused(s);
      }
    } else {
      RefusalLasts(s, steps[0]);
      StepKeepsInv(s, steps[0]);
      RefusedNeverFinishes(Apply(s, steps[0]), steps[1..], s');
    }
  }

  lemma {:induction false} NobodySignals(s: State, steps: seq<Step>, s': State)
    requires Workers(s) == 0 && Run(s, steps, s')
    ensures s'.signalled == s.signalled
    decreases |steps|
  {
    if steps != [] {
      NobodySignals(Apply(s, steps[0]), steps[1..], s');
    }
  }

  /** From any reachable state `par_adder` can still return exactly when the pool has a worker and has not refused, and
      is not bound to refuse, a segment. */
  lemma ReturnsExactly(s0: State, before: seq<Step>, s: State)
    requires IsStart(s0) && Run(s0, before, s)
    ensures (exists more, end :: Run(s, more, end) && Finished(end)) <==> Workers(s) > 0 && Unrefused(s)
  {
    StartInv(s0);
    RunKeepsGood(s0, before, s);
    if Workers(s) > 0 && Unrefused(s) {
      var more, end := FinishSum(s);
      assert Run(s, more, end) && Finished(end);
      assert exists more, end :: Run(s, more, end) && Finished(end);
    } else {
      forall more, end | Run(s, more, end)
        ensures !Finished(end)
      {
        if Workers(s) == 0 {
          NobodySignals(s0, before, s);
          NobodyFinishes(s, more, end);
        } else {
          RefusedNeverFinishes(s, more, end);
        }
      }
    }
  }

  lemma NobodyFinishes(s: State, steps: seq<Step>, s': State)
    requires Good(s) && true !in s.signalled && Workers(s) == 0 && Run(s, steps, s')
    ensures !Finished(s')
  {
    NobodySignals(s, steps, s');
    RunKeepsGood(s, steps, s');
    if Finished(s') {
      FinishedIsUnrefused(s');
    }
  }
}
