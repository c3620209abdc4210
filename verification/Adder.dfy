/** The parallel adder over the pool and the latch, as one transition system. Pool steps and latch steps are those of
    their own modules; this module adds the work function, the submitting thread, and the memory they share. Other
    clients may submit to, and shut down, the same pool at any time. */
module Adder {
  import opened Threads
  import opened Segments
  import Pool
  import Latch

  /** What an accepted work item runs: a segment of this sum, or somebody else's function. */
  datatype Job = Segment(i: nat) | Foreign

  /** A worker inside the work function: summing, with the result stored, or past its critical section in
      `cdl_signal`. `Elsewhere` runs a foreign job or none. */
  datatype Phase = Elsewhere | Working(curr: nat, sum: int) | Stored | Signalled

  /** The thread that called `par_adder`: client 0 of the pool, and the last thread of the latch. */
  datatype Main = Submitting(i: nat) | Waiting | Reading(k: nat, total: int)

  datatype State = State(pool: Pool.State, latch: Latch.State, v: seq<int>, range: nat, contexts: seq<Context>,
                         jobs: seq<Job>, phases: seq<Phase>, main: Main, signalled: seq<bool>)

  datatype Step =
    | InPool(step: Pool.Step)
    | AddElement(w: nat) | StoreResult(w: nat) | SignalLatch(w: nat) | BroadcastLatch(w: nat)
    | MainSubmit | MainEnterWait | MainCheck | MainSpurious | MainRead

  const MAIN_CLIENT: nat := 0

  function Parts(s: State): nat { |s.contexts| }
  function Workers(s: State): nat { |s.phases| }

  /** The segment that worker `w` is computing, or -1. */
  function SegmentOf(s: State, w: nat): int {
    if w < |s.pool.workers| && s.pool.workers[w].Running? then JobSegment(s.jobs, s.pool.workers[w].n) else -1
  }

  function JobSegment(jobs: seq<Job>, n: nat): int {
    if n < |jobs| && jobs[n].Segment? then jobs[n].i else -1
  }

  predicate IsStart(s: State) {
    && Pool.IsStart(s.pool) && |s.pool.clients| > 0
    && Latch.IsStart(s.latch) && s.latch.initial == Parts(s) > 0
    && s.range == |s.v| / Parts(s)
    && |s.pool.workers| == |s.phases| && |s.latch.pcs| == |s.phases| + 1
    && (forall w :: 0 <= w < |s.phases| ==> s.phases[w] == Elsewhere)
    && s.jobs == [] && s.main == Submitting(0)
    && |s.signalled| == Parts(s) && (forall i :: 0 <= i < |s.signalled| ==> !s.signalled[i])
  }

  predicate InWorkFunction(s: State, w: nat) {
    w < |s.phases| && w < |s.latch.pcs| && 0 <= SegmentOf(s, w) < Parts(s) && SegmentOf(s, w) < |s.signalled|
  }

  /** Pool steps are free, except that a segment's function returns only at its end and that the adder's own
      thread submits and shuts down nothing but what `par_adder` says. */
  predicate PoolStepAllowed(s: State, step: Pool.Step) {
    && Pool.Enabled(s.pool, step)
    && (step.Submit? || step.Shutdown? ==> step.c != MAIN_CLIENT)
    && (step.WorkerCheck? ==> step.w < |s.phases|)
    && (step.WorkerFinish? && SegmentOf(s, step.w) >= 0 ==>
          && step.w < |s.phases| && s.phases[step.w] == Signalled
          && step.w < |s.latch.pcs| && s.latch.pcs[step.w] == Latch.Idle)
  }

  predicate Enabled(s: State, step: Step) {
    match step
    case InPool(p) => PoolStepAllowed(s, p)
    case AddElement(w) =>
      && InWorkFunction(s, w) && s.phases[w].Working?
      && s.phases[w].curr != s.contexts[SegmentOf(s, w)].pend && s.phases[w].curr < |s.v|
    case StoreResult(w) =>
      && InWorkFunction(s, w) && s.phases[w].Working? && s.phases[w].curr == s.contexts[SegmentOf(s, w)].pend
    case SignalLatch(w) =>
      InWorkFunction(s, w) && s.phases[w] == Stored && Latch.Enabled(s.latch, Latch.Signal(w))
    case BroadcastLatch(w) =>
      InWorkFunction(s, w) && s.phases[w] == Signalled && Latch.Enabled(s.latch, Latch.Broadcast(w))
    case MainSubmit =>
      s.main.Submitting? && s.main.i < Parts(s) && Pool.Enabled(s.pool, Pool.Submit(MAIN_CLIENT))
    case MainEnterWait =>
      && s.main == Submitting(Parts(s)) && MAIN_CLIENT < |s.pool.clients| && s.pool.clients[MAIN_CLIENT] == Pool.Idle
      && Latch.Enabled(s.latch, Latch.EnterWait(Workers(s)))
    case MainCheck => s.main.Waiting? && Latch.Enabled(s.latch, Latch.Check(Workers(s)))
    case MainSpurious => s.main.Waiting? && Latch.Enabled(s.latch, Latch.SpuriousWake(Workers(s)))
    case MainRead => s.main.Reading? && s.main.k < Parts(s)
  }

  function ApplyPool(s: State, step: Pool.Step): State
    requires PoolStepAllowed(s, step)
  {
    var pool := Pool.Apply(s.pool, step);
    match step
    case Submit(_) => s.(pool := pool, jobs := if s.pool.sh.inShutdown then s.jobs else s.jobs + [Foreign])
    case WorkerCheck(w) =>
      s.(pool := pool,
         phases := s.phases[w := if pool.workers[w].Running? then Begin(s, JobSegment(s.jobs, pool.workers[w].n))
                                 else Elsewhere])
    case _ => s.(pool := pool)
  }

  function Begin(s: State, segment: int): Phase {
    if 0 <= segment < Parts(s) then Working(s.contexts[segment].pstart, 0) else Elsewhere
  }

  function Apply(s: State, step: Step): State
    requires Enabled(s, step)
  {
    match step
    case InPool(p) => ApplyPool(s, p)
    case AddElement(w) =>
      var p := s.phases[w];
      s.(phases := s.phases[w := Working(p.curr + 1, p.sum + s.v[p.curr])])
    case StoreResult(w) =>
      var i := SegmentOf(s, w);
      s.(phases := s.phases[w := Stored], contexts := s.contexts[i := s.contexts[i].(result := s.phases[w].sum)])
    case SignalLatch(w) =>
      s.(phases := s.phases[w := Signalled], latch := Latch.Apply(s.latch, Latch.Signal(w)),
         signalled := s.signalled[SegmentOf(s, w) := true])
    case BroadcastLatch(w) => s.(latch := Latch.Apply(s.latch, Latch.Broadcast(w)))
    case MainSubmit =>
      s.(contexts := s.contexts[s.main.i := Prepared(s.main.i, s.range, |s.v|)],
         pool := Pool.Apply(s.pool, Pool.Submit(MAIN_CLIENT)),
         jobs := if s.pool.sh.inShutdown then s.jobs else s.jobs + [Segment(s.main.i)],
         main := Submitting(s.main.i + 1))
    case MainEnterWait => s.(latch := Latch.Apply(s.latch, Latch.EnterWait(Workers(s))), main := Waiting)
    case MainCheck =>
      var latch := Latch.Apply(s.latch, Latch.Check(Workers(s)));
      s.(latch := latch, main := if latch.passes > s.latch.passes then Reading(0, 0) else Waiting)
    case MainSpurious => s.(latch := Latch.Apply(s.latch, Latch.SpuriousWake(Workers(s))))
    case MainRead => s.(main := Reading(s.main.k + 1, s.main.total + s.contexts[s.main.k].result))
  }

  ghost predicate Run(s: State, steps: seq<Step>, s': State)
    decreases |steps|
  {
    if steps == [] then s == s' else Enabled(s, steps[0]) && Run(Apply(s, steps[0]), steps[1..], s')
  }

  // ----- The invariant -----

  predicate IsTrue(b: bool) { b }

  /** How many contexts have been prepared and offered to the pool. */
  function Offered(s: State): nat {
    if s.main.Submitting? then s.main.i else Parts(s)
  }

  predicate ShapeInv(s: State) {
    && 0 < Parts(s) == |s.signalled| && Offered(s) <= Parts(s)
    && |s.pool.workers| == Workers(s) && |s.latch.pcs| == Workers(s) + 1 && |s.pool.clients| > 0
    && |s.jobs| == s.pool.accepted
    && s.latch.initial == Parts(s)
    && Offset(Parts(s), s.range) <= |s.v|
  }

  /** Every job of this sum is for a context already prepared, and no two are for the same one. */
  ghost predicate JobsInv(s: State) {
    && (forall n :: 0 <= n < |s.jobs| && s.jobs[n].Segment? ==> s.jobs[n].i < Offered(s))
    && (forall a, b :: 0 <= a < b < |s.jobs| && s.jobs[a].Segment? ==> s.jobs[a] != s.jobs[b])
  }

  ghost predicate ContextsInv(s: State)
    requires Offset(Parts(s), s.range) <= |s.v|
  {
    && (forall i :: 0 <= i < Offered(s) && i < |s.contexts| ==>
          s.contexts[i] == Prepared(i, s.range, |s.v|).(result := s.contexts[i].result))
    && (forall i :: 0 <= i < Parts(s) && i < |s.signalled| && s.signalled[i] ==>
          i < Offered(s) && Segment(i) in s.jobs && s.contexts[i].result == SegmentSum(s.v, i, Parts(s), s.range))
  }

  /** What worker `w` knows when it is computing a segment. */
  ghost predicate WorkerKnows(s: State, w: nat)
    requires w < |s.phases| && |s.signalled| == Parts(s) && Offset(Parts(s), s.range) <= |s.v|
  {
    var i := SegmentOf(s, w);
    0 <= i < Parts(s) ==>
      var c := Prepared(i, s.range, |s.v|);
      match s.phases[w]
      case Elsewhere => false
      case Working(curr, sum) =>
        !s.signalled[i] && c.pstart <= curr <= c.pend <= |s.v| && sum == Sum(s.v[c.pstart..curr])
      case Stored => !s.signalled[i] && s.contexts[i].result == SegmentSum(s.v, i, Parts(s), s.range)
      case Signalled => s.signalled[i]
  }

  ghost predicate WorkersInv(s: State)
    requires |s.signalled| == Parts(s) && Offset(Parts(s), s.range) <= |s.v|
  {
    && (forall w :: 0 <= w < |s.phases| ==> WorkerKnows(s, w))
    // a queued segment has not been signalled
    && (forall n :: s.pool.taken <= n < |s.jobs| && s.jobs[n].Segment? && s.jobs[n].i < Parts(s) ==>
          !s.signalled[s.jobs[n].i])
  }

  /** Workers use the latch only to signal their segment, and nobody else signals it. */
  ghost predicate LatchInv(s: State)
    requires |s.latch.pcs| == |s.phases| + 1 && |s.signalled| == Parts(s)
  {
    && s.latch.signals == Count(s.signalled, IsTrue)
    && (forall w :: 0 <= w < |s.phases| ==>
          s.latch.pcs[w] == Latch.Idle ||
          (s.latch.pcs[w] == Latch.Owing && SegmentOf(s, w) >= 0 && s.phases[w] == Signalled))
    && (match s.main
        case Waiting => s.latch.pcs[Workers(s)] == Latch.Awake || s.latch.pcs[Workers(s)] == Latch.Blocked
        case _ => s.latch.pcs[Workers(s)] == Latch.Idle)
  }

  ghost predicate MainInv(s: State)
    requires |s.signalled| == Parts(s) > 0
  {
    s.main.Reading? ==>
      && s.latch.counter <= 0
      && s.main.k <= Parts(s)
      && Offset(s.main.k, s.range) <= |s.v|
      && s.main.total == Sum(s.v[..Offset(s.main.k, s.range)])
  }

  ghost predicate Inv(s: State) {
    && Pool.Inv(s.pool) && Latch.Inv(s.latch)
    && ShapeInv(s) && JobsInv(s) && ContextsInv(s) && WorkersInv(s) && LatchInv(s) && MainInv(s)
  }

  lemma StartInv(s: State)
    requires IsStart(s)
    ensures Inv(s)
  {
    Pool.StartInv(s.pool);
    Latch.StartInv(s.latch);
    CountNone(s.signalled, IsTrue);
    WholePartsFit(|s.v|, Parts(s));
  }

  // ----- Each step keeps the invariant -----

  lemma {:induction false} AtMostOne<T>(s: seq<T>, p: T -> bool, i: nat, j: nat)
    requires Count(s, p) <= 1 && i < j < |s| && p(s[i])
    ensures !p(s[j])
  {
    var front := s[..|s| - 1];
    CountNone(front, p);
    assert front[i] == s[i];
    if j < |s| - 1 {
      AtMostOne(front, p, i, j);
      assert front[j] == s[j];
    }
  }

  /** Two workers never compute the same segment. */
  lemma OneWorkerPerSegment(s: State, w: nat, u: nat)
    requires Inv(s) && w < Workers(s) && u < Workers(s) && w != u && SegmentOf(s, w) >= 0
    ensures SegmentOf(s, u) != SegmentOf(s, w)
  {
    if SegmentOf(s, u) == SegmentOf(s, w) {
      var n := s.pool.workers[w].n;
      AtMostOne(s.pool.workers, Pool.RunningItem(n), if w < u then w else u, if w < u then u else w);
    }
  }

  /** What a pool step does to the part of the pool the adder looks at. */
  lemma PoolEffect(s: Pool.State, step: Pool.Step)
    requires Pool.Inv(s) && Pool.Enabled(s, step)
    ensures var s' := Pool.Apply(s, step);
            && |s'.workers| == |s.workers| && |s'.clients| == |s.clients|
            && s'.accepted == s.accepted + (if step.Submit? && !s.sh.inShutdown then 1 else 0)
            && (forall u :: 0 <= u < |s.workers| && !(Pool.IsWorkerStep(step) && step.w == u) ==>
                  s'.workers[u] == s.workers[u] || !(s'.workers[u].Running? || s.workers[u].Running?))
            && (step.WorkerCheck? && s'.workers[step.w].Running? ==>
                  s'.workers[step.w].n == s.taken < s.accepted && s'.taken == s.taken + 1)
            && (step.WorkerFinish? || step.WorkerRetire? || step.WorkerSpurious? ==>
                  !s'.workers[step.w].Running?)
            && s.taken <= s'.taken
  {
  }

  /** Which segment a worker computes changes only by its own steps. */
  lemma PoolSegments(s: State, step: Pool.Step, u: nat)
    requires Inv(s) && PoolStepAllowed(s, step) && u < Workers(s)
    ensures var s' := ApplyPool(s, step);
            if step.WorkerCheck? && step.w == u then
              SegmentOf(s', u) >= 0 ==>
                && SegmentOf(s', u) == JobSegment(s.jobs, s.pool.taken) && s.pool.taken < |s.jobs|
                && s'.phases[u] == Begin(s, SegmentOf(s', u))
            else if step.WorkerFinish? && step.w == u then SegmentOf(s', u) == -1
            else SegmentOf(s', u) == SegmentOf(s, u) && s'.phases[u] == s.phases[u]
  {
    PoolEffect(s.pool, step);
    if s.pool.workers[u].Running? {
      RunningWasAccepted(s.pool, u);
    }
  }

  lemma RunningWasAccepted(s: Pool.State, u: nat)
    requires Pool.Inv(s) && u < |s.workers| && s.workers[u].Running?
    ensures s.workers[u].n < s.taken <= s.accepted
  {
    var p := Pool.RunningItem(s.workers[u].n);
    CountNone(s.workers, p);
    assert p(s.workers[u]);
  }

  lemma PoolStepKeepsShape(s: State, step: Pool.Step)
    requires Inv(s) && PoolStepAllowed(s, step)
    ensures ShapeInv(ApplyPool(s, step)) && JobsInv(ApplyPool(s, step)) && ContextsInv(ApplyPool(s, step))
    ensures MainInv(ApplyPool(s, step))
  {
    PoolEffect(s.pool, step);
  }

  lemma PoolStepKeepsWorkers(s: State, step: Pool.Step)
    requires Inv(s) && PoolStepAllowed(s, step)
    ensures WorkersInv(ApplyPool(s, step)) && |ApplyPool(s, step).phases| == Workers(s)
  {
    var s' := ApplyPool(s, step);
    PoolEffect(s.pool, step);
    forall u: nat | u < Workers(s)
      ensures WorkerKnows(s', u)
    {
      PoolSegments(s, step, u);
      var i := SegmentOf(s', u);
      if 0 <= i < Parts(s) {
        if step.WorkerCheck? && step.w == u {
          SegmentsAreAdjacent(i, Parts(s), s.range, |s.v|);
          assert s'.phases[u] == Working(Prepared(i, s.range, |s.v|).pstart, 0);
        } else {
          assert WorkerKnows(s, u);
        }
      }
    }
  }

  lemma PoolStepKeepsLatch(s: State, step: Pool.Step)
    requires Inv(s) && PoolStepAllowed(s, step) && |ApplyPool(s, step).phases| == Workers(s)
    ensures LatchInv(ApplyPool(s, step))
  {
    var s' := ApplyPool(s, step);
    forall u: nat | u < Workers(s) && s.latch.pcs[u] == Latch.Owing
      ensures SegmentOf(s', u) >= 0 && s'.phases[u] == Signalled
    {
      PoolSegments(s, step, u);
    }
  }

  lemma AddElementKeepsWorkers(s: State, w: nat)
    requires Inv(s) && Enabled(s, AddElement(w))
    ensures WorkersInv(Apply(s, AddElement(w)))
  {
    var s' := Apply(s, AddElement(w));
    assert WorkerKnows(s, w);
    AddElementSums(s, w);
    forall u: nat | u < Workers(s) && u != w
      ensures WorkerKnows(s', u)
    {
      assert WorkerKnows(s, u);
    }
  }

  lemma AddElementSums(s: State, w: nat)
    requires ShapeInv(s) && Enabled(s, AddElement(w)) && WorkerKnows(s, w)
    requires s.contexts[SegmentOf(s, w)].pend == Prepared(SegmentOf(s, w), s.range, |s.v|).pend
    ensures WorkerKnows(Apply(s, AddElement(w)), w)
  {
    var c := Prepared(SegmentOf(s, w), s.range, |s.v|);
    var curr := s.phases[w].curr;
    SumAppend(s.v[c.pstart..curr], s.v[curr]);
    assert s.v[c.pstart..curr + 1] == s.v[c.pstart..curr] + [s.v[curr]];
  }

  lemma AddElementKeepsInv(s: State, w: nat)
    requires Inv(s) && Enabled(s, AddElement(w))
    ensures Inv(Apply(s, AddElement(w)))
  {
    AddElementKeepsWorkers(s, w);
    var s' := Apply(s, AddElement(w));
    assert forall u :: 0 <= u < Workers(s) ==> SegmentOf(s', u) == SegmentOf(s, u);
  }

  lemma StoreResultKeepsInv(s: State, w: nat)
    requires Inv(s) && Enabled(s, StoreResult(w))
    ensures Inv(Apply(s, StoreResult(w)))
  {
    var s' := Apply(s, StoreResult(w));
    assert WorkerKnows(s, w);
    forall u: nat | u < Workers(s)
      ensures WorkerKnows(s', u)
    {
      assert WorkerKnows(s, u);
      if u != w {
        OneWorkerPerSegment(s, w, u);
      }
    }
  }

  lemma SignalLatchKeepsWorkers(s: State, w: nat)
    requires Inv(s) && Enabled(s, SignalLatch(w))
    ensures WorkersInv(Apply(s, SignalLatch(w))) && ContextsInv(Apply(s, SignalLatch(w)))
  {
    var s' := Apply(s, SignalLatch(w));
    var n := s.pool.workers[w].n;
    assert WorkerKnows(s, w);
    RunningWasAccepted(s.pool, w);
    forall u: nat | u < Workers(s)
      ensures WorkerKnows(s', u)
    {
      assert WorkerKnows(s, u);
      if u != w {
        OneWorkerPerSegment(s, w, u);
      }
    }
    assert s.jobs[n] == Segment(SegmentOf(s, w));
  }

  lemma SignalLatchKeepsInv(s: State, w: nat)
    requires Inv(s) && Enabled(s, SignalLatch(w))
    ensures Inv(Apply(s, SignalLatch(w)))
  {
    SignalLatchKeepsWorkers(s, w);
    SignalLatchKeepsLatch(s, w);
  }

  lemma SignalLatchKeepsLatch(s: State, w: nat)
    requires Inv(s) && Enabled(s, SignalLatch(w))
    ensures var s' := Apply(s, SignalLatch(w));
            && |s'.latch.pcs| == |s'.phases| + 1 && |s'.signalled| == Parts(s')
            && Latch.Inv(s'.latch) && LatchInv(s')
  {
    var s' := Apply(s, SignalLatch(w));
    Latch.StepKeepsInv(s.latch, Latch.Signal(w));
    assert WorkerKnows(s, w);
    CountUpdate(s.signalled, SegmentOf(s, w), true, IsTrue);
    assert forall u :: 0 <= u < Workers(s) ==> SegmentOf(s', u) == SegmentOf(s, u);
  }

  /** A step that leaves the pool, the work and the contexts alone keeps what the workers know. */
  lemma WorkUntouched(s: State, s': State)
    requires Inv(s)
    requires s' == s.(latch := s'.latch, main := s'.main) && Offered(s') == Offered(s)
    ensures JobsInv(s') && ContextsInv(s') && WorkersInv(s')
  {
    forall u: nat | u < Workers(s)
      ensures WorkerKnows(s', u) && SegmentOf(s', u) == SegmentOf(s, u)
    {
      assert WorkerKnows(s, u);
    }
  }

  lemma BroadcastLatchKeepsInv(s: State, w: nat)
    requires Inv(s) && Enabled(s, BroadcastLatch(w))
    ensures Inv(Apply(s, BroadcastLatch(w)))
  {
    WorkUntouched(s, Apply(s, BroadcastLatch(w)));
    BroadcastLatchKeepsLatch(s, w);
  }

  lemma BroadcastLatchKeepsLatch(s: State, w: nat)
    requires Inv(s) && Enabled(s, BroadcastLatch(w))
    ensures Latch.Inv(Apply(s, BroadcastLatch(w)).latch) && LatchInv(Apply(s, BroadcastLatch(w)))
  {
    Latch.StepKeepsInv(s.latch, Latch.Broadcast(w));
    assert forall u :: 0 <= u < Workers(s) ==> SegmentOf(Apply(s, BroadcastLatch(w)), u) == SegmentOf(s, u);
  }

  lemma MainSubmitKeepsInv(s: State)
    requires Inv(s) && Enabled(s, MainSubmit)
    ensures Inv(Apply(s, MainSubmit))
  {
    Pool.StepKeepsInv(s.pool, Pool.Submit(MAIN_CLIENT));
    MainSubmitKeepsJobs(s);
    MainSubmitKeepsContexts(s);
    MainSubmitKeepsWorkers(s);
  }

  lemma MainSubmitKeepsJobs(s: State)
    requires ShapeInv(s) && JobsInv(s) && Enabled(s, MainSubmit)
    ensures ShapeInv(Apply(s, MainSubmit)) && JobsInv(Apply(s, MainSubmit)) && MainInv(Apply(s, MainSubmit))
  {
  }

  lemma MainSubmitKeepsContexts(s: State)
    requires ShapeInv(s) && ContextsInv(s) && Enabled(s, MainSubmit) && ShapeInv(Apply(s, MainSubmit))
    ensures ContextsInv(Apply(s, MainSubmit))
  {
  }

  lemma MainSubmitKeepsWorkers(s: State)
    requires Inv(s) && Enabled(s, MainSubmit) && ShapeInv(Apply(s, MainSubmit))
    ensures WorkersInv(Apply(s, MainSubmit)) && LatchInv(Apply(s, MainSubmit))
  {
    var s' := Apply(s, MainSubmit);
    forall u: nat | u < Workers(s)
      ensures WorkerKnows(s', u) && SegmentOf(s', u) == SegmentOf(s, u)
    {
      assert WorkerKnows(s, u);
      if s.pool.workers[u].Running? {
        RunningWasAccepted(s.pool, u);
      }
    }
  }

  function LatchStep(s: State, step: Step): Latch.Step {
    match step
    case MainEnterWait => Latch.EnterWait(Workers(s))
    case MainCheck => Latch.Check(Workers(s))
    case _ => Latch.SpuriousWake(Workers(s))
  }

  lemma MainStepKeepsLatch(s: State, step: Step)
    requires Inv(s) && Enabled(s, step)
    requires step.MainEnterWait? || step.MainCheck? || step.MainSpurious?
    ensures ShapeInv(Apply(s, step)) && Latch.Inv(Apply(s, step).latch) && LatchInv(Apply(s, step))
    ensures Apply(s, step).main.Reading? ==> Apply(s, step).latch.counter <= 0 && Apply(s, step).main == Reading(0, 0)
  {
    Latch.StepKeepsInv(s.latch, LatchStep(s, step));
    assert forall u :: 0 <= u < Workers(s) ==> SegmentOf(Apply(s, step), u) == SegmentOf(s, u);
  }

  lemma MainStepKeepsInv(s: State, step: Step)
    requires Inv(s) && Enabled(s, step)
    requires step.MainEnterWait? || step.MainCheck? || step.MainSpurious?
    ensures Inv(Apply(s, step))
  {
    MainStepKeepsLatch(s, step);
    WorkUntouched(s, Apply(s, step));
    assert s.v[..Offset(0, s.range)] == [];
  }

  /** Once the latch has let the main thread through, every segment has been signalled. */
  lemma AllSignalled(s: State)
    requires Inv(s) && s.latch.counter <= 0
    ensures forall i :: 0 <= i < Parts(s) ==>
              s.signalled[i] && Segment(i) in s.jobs && s.contexts[i].result == SegmentSum(s.v, i, Parts(s), s.range)
  {
    CountEvery(s.signalled, IsTrue);
  }

  lemma MainReadKeepsInv(s: State)
    requires Inv(s) && Enabled(s, MainRead)
    ensures Inv(Apply(s, MainRead))
  {
    MainReadKeepsTotal(s);
    WorkUntouched(s, Apply(s, MainRead));
    assert forall u :: 0 <= u < Workers(s) ==> SegmentOf(Apply(s, MainRead), u) == SegmentOf(s, u);
  }

  lemma MainReadKeepsTotal(s: State)
    requires Inv(s) && Enabled(s, MainRead)
    ensures MainInv(Apply(s, MainRead))
  {
    AllSignalled(s);
    ReadAddsSegment(s);
  }

  lemma ReadAddsSegment(s: State)
    requires Enabled(s, MainRead) && |s.signalled| == Parts(s) && Offset(Parts(s), s.range) <= |s.v|
    requires MainInv(s) && s.contexts[s.main.k].result == SegmentSum(s.v, s.main.k, Parts(s), s.range)
    ensures MainInv(Apply(s, MainRead))
  {
    PrefixGrows(s.v, s.main.k, Parts(s), s.range);
  }

  lemma StepKeepsInv(s: State, step: Step)
    requires Inv(s) && Enabled(s, step)
    ensures Inv(Apply(s, step))
  {
    match step
    case InPool(p) =>
      PoolStepKeepsShape(s, p);
      PoolStepKeepsWorkers(s, p);
      PoolStepKeepsLatch(s, p);
      Pool.StepKeepsInv(s.pool, p);
    case AddElement(w) => AddElementKeepsInv(s, w);
    case StoreResult(w) => StoreResultKeepsInv(s, w);
    case SignalLatch(w) => SignalLatchKeepsInv(s, w);
    case BroadcastLatch(w) => BroadcastLatchKeepsInv(s, w);
    case MainSubmit => MainSubmitKeepsInv(s);
    case MainRead => MainReadKeepsInv(s);
    case _ => MainStepKeepsInv(s, step);
  }

  lemma {:induction false} RunKeepsInv(s: State, steps: seq<Step>, s': State)
    requires Inv(s) && Run(s, steps, s')
    ensures Inv(s') && s'.v == s.v && Parts(s') == Parts(s) && s'.range == s.range
    decreases |steps|
  {
    if steps != [] {
      StepKeepsInv(s, steps[0]);
      RunKeepsInv(Apply(s, steps[0]), steps[1..], s');
    }
  }

  // ----- What par_adder returns -----

  /** In every interleaving of workers, clients, latch and adder, once `par_adder` is past `cdl_wait` every segment has
      been accepted, its result is in place, and no later step of anybody changes it. */
  lemma ResultsAreFinal(s: State, steps: seq<Step>, s': State, later: seq<Step>, s'': State)
    requires IsStart(s) && Run(s, steps, s') && s'.main.Reading? && Run(s', later, s'')
    ensures s'.v == s.v && Parts(s') == Parts(s) && s'.range == s.range && Offset(Parts(s), s.range) <= |s.v|
    ensures forall i :: 0 <= i < Parts(s) ==> Segment(i) in s'.jobs
    ensures forall i :: 0 <= i < Parts(s) ==> s'.contexts[i].result == SegmentSum(s.v, i, Parts(s), s.range)
    ensures s''.contexts == s'.contexts
  {
    Reached(s, steps, s');
    FinalFrom(s', later, s'');
  }

  lemma FinalFrom(s: State, later: seq<Step>, s': State)
    requires Inv(s) && s.main.Reading? && Run(s, later, s')
    ensures forall i :: 0 <= i < Parts(s) ==> Segment(i) in s.jobs
    ensures forall i :: 0 <= i < Parts(s) ==> s.contexts[i].result == SegmentSum(s.v, i, Parts(s), s.range)
    ensures s'.contexts == s.contexts
  {
    AllSignalled(s);
    ContextsNoLongerChange(s, later, s');
  }

  lemma Reached(s: State, steps: seq<Step>, s': State)
    requires IsStart(s) && Run(s, steps, s')
    ensures Inv(s') && s'.v == s.v && Parts(s') == Parts(s) && s'.range == s.range
  {
    StartInv(s);
    RunKeepsInv(s, steps, s');
  }

  lemma ContextsNoLongerChange(s: State, steps: seq<Step>, s': State)
    requires Inv(s) && s.main.Reading? && Run(s, steps, s')
    ensures s'.contexts == s.contexts
  {
    ReadingLasts(s, steps, s');
    RunKeepsInv(s, steps, s');
    ContextsWhenReading(s);
    ContextsWhenReading(s');
  }

  lemma ContextsWhenReading(s: State)
    requires Inv(s) && s.main.Reading?
    ensures forall i :: 0 <= i < Parts(s) ==>
              && Segment(i) in s.jobs
              && s.contexts[i] == Prepared(i, s.range, |s.v|).(result := SegmentSum(s.v, i, Parts(s), s.range))
  {
    AllSignalled(s);
  }

  lemma {:induction false} ReadingLasts(s: State, steps: seq<Step>, s': State)
    requires s.main.Reading? && Inv(s) && Run(s, steps, s')
    ensures s'.main.Reading?
    decreases |steps|
  {
    if steps != [] {
      StepKeepsInv(s, steps[0]);
      ReadingLasts(Apply(s, steps[0]), steps[1..], s');
    }
  }

  /** When it has read all the results, the total is the sum of the first parts * (size / parts) elements. It is what
      the sequential adder returns exactly when the elements left over add up to zero, so always when there are none. */
  lemma AdderIsCorrect(s: State, steps: seq<Step>, s': State)
    requires IsStart(s) && Run(s, steps, s')
    requires s'.main.Reading? && s'.main.k == Parts(s)
    ensures s'.main.total == ParallelTotal(s.v, Parts(s))
    ensures s'.main.total == Sum(s.v) <==> Sum(s.v[Covered(|s.v|, Parts(s))..]) == 0
    ensures |s.v| % Parts(s) == 0 ==> s'.main.total == Sum(s.v)
  {
    Reached(s, steps, s');
    WholePartsFit(|s.v|, Parts(s));
    LeftOver(s.v, Parts(s));
  }

  /** A `long` holds every partial sum of every worker and of the caller, when the elements and the size are ints. */
  lemma NoAccumulatorOverflows(s: State, steps: seq<Step>, s': State)
    requires IsStart(s) && Run(s, steps, s') && IsIntVector(s.v)
    ensures forall w :: 0 <= w < Workers(s') && 0 <= SegmentOf(s', w) < Parts(s') && s'.phases[w].Working? ==>
              LONG_MIN <= s'.phases[w].sum <= LONG_MAX
    ensures s'.main.Reading? ==> LONG_MIN <= s'.main.total <= LONG_MAX
  {
    Reached(s, steps, s');
    forall w: nat | w < Workers(s') && 0 <= SegmentOf(s', w) < Parts(s') && s'.phases[w].Working?
      ensures LONG_MIN <= s'.phases[w].sum <= LONG_MAX
    {
      WorkerSumFits(s', w);
    }
    if s'.main.Reading? {
      TotalFits(s');
    }
  }

  lemma TotalFits(s: State)
    requires |s.signalled| == Parts(s) > 0 && MainInv(s) && IsIntVector(s.v) && s.main.Reading?
    ensures LONG_MIN <= s.main.total <= LONG_MAX
  {
    SliceFitsLong(s.v, 0, Offset(s.main.k, s.range));
  }

  lemma WorkerSumFits(s: State, w: nat)
    requires Inv(s) && IsIntVector(s.v)
    requires w < Workers(s) && 0 <= SegmentOf(s, w) < Parts(s) && s.phases[w].Working?
    ensures LONG_MIN <= s.phases[w].sum <= LONG_MAX
  {
    assert WorkerKnows(s, w);
    SliceFitsLong(s.v, Prepared(SegmentOf(s, w), s.range, |s.v|).pstart, s.phases[w].curr);
  }

  // ----- The adder never gets stuck -----

  /** A segment whose work item has been run to its end has been signalled. */
  ghost predicate FinishedInv(s: State)
    requires |s.signalled| == Parts(s)
  {
    forall n: nat :: 0 <= JobSegment(s.jobs, n) < Parts(s) && s.pool.finished[n] > 0 ==>
      s.signalled[JobSegment(s.jobs, n)]
  }

  lemma FinishKeepsFinished(s: State, w: nat)
    requires Inv(s) && FinishedInv(s) && Enabled(s, InPool(Pool.WorkerFinish(w)))
    ensures FinishedInv(Apply(s, InPool(Pool.WorkerFinish(w))))
  {
    if SegmentOf(s, w) >= 0 {
      assert WorkerKnows(s, w);
    }
  }

  lemma SubmitKeepsFinished(s: State, step: Step)
    requires Inv(s) && FinishedInv(s) && Enabled(s, step)
    requires step == MainSubmit || (step.InPool? && step.step.Submit?)
    ensures FinishedInv(Apply(s, step))
  {
    var n := s.pool.accepted;
    assert s.pool.finished[n] == 0 by {
      assert s.pool.finished[n] + Count(s.pool.workers, Pool.RunningItem(n)) == 0;
    }
    assert forall m: nat :: m != n ==> JobSegment(Apply(s, step).jobs, m) == JobSegment(s.jobs, m);
  }

  lemma OthersKeepFinished(s: State, step: Step)
    requires |s.signalled| == Parts(s) && FinishedInv(s) && Enabled(s, step)
    requires step != MainSubmit && !(step.InPool? && (step.step.Submit? || step.step.WorkerFinish?))
    ensures |Apply(s, step).signalled| == Parts(Apply(s, step)) && FinishedInv(Apply(s, step))
  {
  }

  lemma StepKeepsFinished(s: State, step: Step)
    requires Inv(s) && FinishedInv(s) && Enabled(s, step) && |Apply(s, step).signalled| == Parts(Apply(s, step))
    ensures FinishedInv(Apply(s, step))
  {
    if step == MainSubmit || (step.InPool? && step.step.Submit?) {
      SubmitKeepsFinished(s, step);
    } else if step.InPool? && step.step.WorkerFinish? {
      FinishKeepsFinished(s, step.step.w);
    } else {
      OthersKeepFinished(s, step);
    }
  }

  lemma {:induction false} RunKeepsFinished(s: State, steps: seq<Step>, s': State)
    requires Inv(s) && FinishedInv(s) && Run(s, steps, s')
    ensures Inv(s') && FinishedInv(s')
    decreases |steps|
  {
    if steps != [] {
      StepKeepsInv(s, steps[0]);
      StepKeepsFinished(s, steps[0]);
      RunKeepsFinished(Apply(s, steps[0]), steps[1..], s');
    }
  }

  /** A step that brings work forward: not a new call by a client, and not a spurious wake-up. */
  predicate IsProgress(step: Step) {
    match step
    case InPool(p) => p.WorkerCheck? || p.WorkerFinish? || p.WorkerRetire? || p.Signal?
    case MainSpurious => false
    case _ => true
  }

  /** A worker that is computing a segment has a next step. */
  lemma SegmentGoesOn(s: State, w: nat)
    requires Inv(s) && w < Workers(s) && 0 <= SegmentOf(s, w) < Parts(s)
    ensures exists step :: IsProgress(step) && Enabled(s, step)
  {
    assert WorkerKnows(s, w);
    match s.phases[w]
    case Working(curr, _) =>
      if curr == s.contexts[SegmentOf(s, w)].pend {
        assert Enabled(s, StoreResult(w));
      } else {
        assert Enabled(s, AddElement(w));
      }
    case Stored => assert Enabled(s, SignalLatch(w));
    case Signalled =>
      if s.latch.pcs[w] == Latch.Owing {
        assert Enabled(s, BroadcastLatch(w));
      } else {
        assert Enabled(s, InPool(Pool.WorkerFinish(w)));
      }
    case Elsewhere =>
  }

  lemma WorkerGoesOn(s: State, w: nat)
    requires Inv(s) && w < Workers(s) && s.pool.workers[w] != Pool.Blocked && s.pool.workers[w] != Pool.Terminated
    ensures exists step :: IsProgress(step) && Enabled(s, step)
  {
    match s.pool.workers[w]
    case Running(n) =>
      if SegmentOf(s, w) >= 0 {
        RunningWasAccepted(s.pool, w);
        SegmentGoesOn(s, w);
      } else {
        assert Enabled(s, InPool(Pool.WorkerFinish(w)));
      }
    case Checking => assert Enabled(s, InPool(Pool.WorkerCheck(w)));
    case HoldingPill => assert Enabled(s, InPool(Pool.WorkerRetire(w)));
    case _ =>
  }

  lemma SignallerGoesOn(s: State, c: nat)
    requires Inv(s) && c < |s.pool.clients| && s.pool.clients[c] == Pool.Signalling
    ensures exists step :: IsProgress(step) && Enabled(s, step)
  {
    if Pool.Blocked in s.pool.workers {
      var w: nat :| w < |s.pool.workers| && s.pool.workers[w] == Pool.Blocked;
      assert Enabled(s, InPool(Pool.Signal(c, w)));
    } else {
      assert Enabled(s, InPool(Pool.Signal(c, 0)));
    }
  }

  /** When every worker sleeps or has gone and no signal is pending, all accepted work has been run to its end. */
  lemma IdlePoolHasFinished(s: Pool.State, n: nat)
    requires Pool.Inv(s) && |s.workers| > 0 && n < s.accepted
    requires forall w :: 0 <= w < |s.workers| ==> s.workers[w] == Pool.Blocked || s.workers[w] == Pool.Terminated
    requires forall c :: 0 <= c < |s.clients| ==> s.clients[c] != Pool.Signalling
    ensures s.finished[n] == 1
  {
    CountNone(s.workers, Pool.RunningItem(n));
    CountNone(s.workers, Pool.IsChecking);
    CountNone(s.clients, Pool.IsSignalling);
    CountNone(s.workers, Pool.IsTerminated);
    CountNone(s.workers, Pool.IsBlocked);
    assert s.workers[0] == Pool.Blocked || s.workers[0] == Pool.Terminated;
  }

  /** While `par_adder` waits on the latch somebody can always bring it forward, if all its submissions were accepted
      and the pool has a worker. */
  lemma WaitingAdderIsServed(s: State)
    requires Inv(s) && FinishedInv(s) && s.main.Waiting? && Workers(s) > 0
    requires forall i :: 0 <= i < Parts(s) ==> Segment(i) in s.jobs
    ensures exists step :: IsProgress(step) && Enabled(s, step)
  {
    if w: nat :| w < Workers(s) && s.pool.workers[w] != Pool.Blocked && s.pool.workers[w] != Pool.Terminated {
      WorkerGoesOn(s, w);
    } else if c: nat :| c < |s.pool.clients| && s.pool.clients[c] == Pool.Signalling {
      SignallerGoesOn(s, c);
    } else {
      forall i | 0 <= i < Parts(s)
        ensures s.signalled[i]
      {
        var n: nat :| n < |s.jobs| && s.jobs[n] == Segment(i);
        IdlePoolHasFinished(s.pool, n);
        assert JobSegment(s.jobs, n) == i;
      }
      CountEvery(s.signalled, IsTrue);
      LatchLetsMainGo(s);
    }
  }

  lemma LatchLetsMainGo(s: State)
    requires Inv(s) && s.main.Waiting? && s.latch.counter <= 0
    requires forall w :: 0 <= w < Workers(s) ==> SegmentOf(s, w) < 0
    ensures exists step :: IsProgress(step) && Enabled(s, step)
  {
    CountNone(s.latch.pcs, Latch.IsOwing);
    CountNone(s.latch.pcs, Latch.IsBlocked);
    assert Count(s.latch.pcs, Latch.IsBlocked) == 0;
    assert Enabled(s, MainCheck);
  }

  /** In no run is `par_adder` left waiting with nobody able to bring it forward, as long as the pool has a worker and
      accepted all its segments. If the pool, being shut down, refused one, ResultsAreFinal says it never returns. */
  lemma AdderIsNeverStranded(s: State, steps: seq<Step>, s': State)
    requires IsStart(s) && Run(s, steps, s') && s'.main.Waiting? && Workers(s) > 0
    requires forall i :: 0 <= i < Parts(s) ==> Segment(i) in s'.jobs
    ensures exists step :: IsProgress(step) && Enabled(s', step)
  {
    StartInv(s);
    RunKeepsFinished(s, steps, s');
    RunKeepsInv(s, steps, s');
    RunKeepsWorkers(s, steps, s');
    WaitingAdderIsServed(s');
  }

  lemma {:induction false} RunKeepsWorkers(s: State, steps: seq<Step>, s': State)
    requires Inv(s) && Run(s, steps, s')
    ensures Workers(s') == Workers(s)
    decreases |steps|
  {
    if steps != [] {
      StepKeepsInv(s, steps[0]);
      RunKeepsWorkers(Apply(s, steps[0]), steps[1..], s');
    }
  }

  /** The only steps that change nothing are another client's refused submission and second shutdown. */
  lemma StepIsIdleExactly(s: State, step: Step)
    requires Enabled(s, step)
    ensures Apply(s, step) == s
       <==> step.InPool? && s.pool.sh.inShutdown && (step.step.Submit? || step.step.Shutdown?)
  {
    match step
    case InPool(p) => Pool.StepIsIdleExactly(s.pool, p);
    case BroadcastLatch(w) => Latch.EveryStepMoves(s.latch, Latch.Broadcast(w));
    case MainCheck => Latch.EveryStepMoves(s.latch, Latch.Check(Workers(s)));
    case MainSpurious => Latch.EveryStepMoves(s.latch, Latch.SpuriousWake(Workers(s)));
    case AddElement(w) => assert Apply(s, step).phases[w] != s.phases[w];
    case StoreResult(w) => assert Apply(s, step).phases[w] != s.phases[w];
    case SignalLatch(w) => assert Apply(s, step).phases[w] != s.phases[w];
    case MainSubmit => assert Apply(s, step).main != s.main;
    case MainEnterWait => assert Apply(s, step).main != s.main;
    case MainRead => assert Apply(s, step).main != s.main;
  }

  /** The caller's wait may return at any time, with the counter as it was. */
  lemma AnyWaitMayReturn(s: State)
    requires ShapeInv(s) && s.main.Waiting? && s.latch.pcs[Workers(s)] == Latch.Blocked
    ensures Enabled(s, MainSpurious)
    ensures Apply(s, MainSpurious) == s.(latch := s.latch.(pcs := s.latch.pcs[Workers(s) := Latch.Awake]))
  {
  }
}
