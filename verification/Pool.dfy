/** The thread pool: workers that take items from a queue or sleep on `has_work`, clients that submit and signal
    after unlocking, and a shutdown that queues one poison pill per worker and waits for the last worker to go. */
module Pool {
  import opened Threads

  /** A queued item. Work items are numbered in the order in which they were accepted; a pill is the item whose
      function is NULL. */
  datatype Item = Work(n: nat) | Pill

  /** What the pool's mutex protects. */
  datatype Shared = Shared(nthreads: nat, remaining: int, queue: seq<Item>, inShutdown: bool, shutdownDone: bool)

  function SubmitSpec(sh: Shared, n: nat): Shared {
    if sh.inShutdown then sh else sh.(queue := sh.queue + [Work(n)])
  }

  function Pills(k: nat): (r: seq<Item>)
    ensures |r| == k && forall i :: 0 <= i < k ==> r[i] == Pill
  {
    seq(k, _ => Pill)
  }

  function ShutdownSpec(sh: Shared): Shared {
    if sh.inShutdown then sh else sh.(inShutdown := true, queue := sh.queue + Pills(sh.nthreads))
  }

  function RetireSpec(sh: Shared): Shared {
    sh.(remaining := sh.remaining - 1, shutdownDone := sh.shutdownDone || sh.remaining == 1)
  }

  class PoolObject {
    var nthreads: nat
    var remaining: int
    var queue: seq<Item>
    var inShutdown: bool
    var shutdownDone: bool

    ghost function View(): Shared
      reads this
    {
      Shared(nthreads, remaining, queue, inShutdown, shutdownDone)
    }

    constructor (poolSize: nat)
      ensures View() == Shared(poolSize, poolSize, [], false, false)
    {
      queue := [];
      nthreads, remaining := poolSize, poolSize;
      inShutdown, shutdownDone := false, false;
    }

    /** `tp_submit` up to the unlock; the caller signals `has_work` afterwards exactly when the item was accepted. */
    method Submit(n: nat) returns (accepted: bool)
      modifies this
      ensures View() == SubmitSpec(old(View()), n)
      ensures accepted <==> !old(inShutdown)
    {
      if inShutdown {
        return false;
      }
      queue := queue + [Work(n)];
      return true;
    }

    /** A worker's critical section at the head of its loop: `wait` when there is nothing to take. */
    method Take() returns (wait: bool, item: Item)
      modifies this`queue
      ensures wait <==> old(queue) == []
      ensures wait ==> queue == old(queue)
      ensures !wait ==> [item] + queue == old(queue)
    {
      wait, item := queue == [], Pill;
      if !wait {
        item := queue[0];
        queue := queue[1..];
      }
    }

    /** What a worker does under the mutex after taking a pill. `done` says that it broadcasts. */
    method Retire() returns (done: bool)
      modifies this
      ensures View() == RetireSpec(old(View()))
      ensures done <==> remaining == 0
    {
      remaining := remaining - 1;
      done := remaining == 0;
      if done {
        shutdownDone := true;
      }
    }

    /** `tp_shutdown` from the lock to the wait loop. `first` says that the caller goes on to broadcast and wait. */
    method Shutdown() returns (first: bool)
      modifies this
      ensures View() == ShutdownSpec(old(View()))
      ensures first <==> !old(inShutdown)
    {
      if inShutdown {
        return false;
      }
      inShutdown := true;
      for i := 0 to nthreads
        invariant View() == old(View()).(inShutdown := true, queue := old(queue) + Pills(i))
      {
        queue := queue + [Pill];
      }
      return true;
    }
  }

  // ----- The pool as a transition system -----

  /** A worker: `Checking` is about to lock and look at the queue, at the head of its loop or after a wake-up;
      `Blocked` waits on has_work; `Running(n)` is inside the function of item `n`. */
  datatype WorkerPc = Checking | Blocked | Running(n: nat) | HoldingPill | Terminated

  /** A client: `Signalling` has unlocked after an accepted submission and not yet signalled; the `Shut` points are
      those of the one caller that started the shutdown, outside, on `workers_terminated`, or past its wait loop. */
  datatype ClientPc = Idle | Signalling | ShutBlocked | ShutAwake | ShutLeft

  /** `accepted`, `taken` and `finished` record the history of the work items, `atShutdown` how many had been
      accepted when the shutdown began, and `completions` how often `shutdownDone` was set. */
  datatype State = State(sh: Shared, workers: seq<WorkerPc>, clients: seq<ClientPc>,
                         accepted: nat, taken: nat, finished: multiset<nat>, atShutdown: nat, completions: nat)

  datatype Step =
    | WorkerCheck(w: nat) | WorkerFinish(w: nat) | WorkerRetire(w: nat) | WorkerSpurious(w: nat)
    | Submit(c: nat) | Signal(c: nat, target: nat)
    | Shutdown(c: nat) | ShutdownCheck(c: nat) | ShutdownSpurious(c: nat)

  predicate IsWorkerStep(step: Step) {
    step.WorkerCheck? || step.WorkerFinish? || step.WorkerRetire? || step.WorkerSpurious?
  }

  predicate IsStart(s: State) {
    && s.sh == Shared(|s.workers|, |s.workers|, [], false, false)
    && (forall w :: 0 <= w < |s.workers| ==> s.workers[w] == Checking)
    && (forall c :: 0 <= c < |s.clients| ==> s.clients[c] == Idle)
    && s.accepted == s.taken == s.completions == 0 && s.finished == multiset{}
  }

  predicate Enabled(s: State, step: Step) {
    if IsWorkerStep(step) then
      && step.w < |s.workers|
      && match step
         case WorkerCheck(w) => s.workers[w] == Checking
         case WorkerFinish(w) => s.workers[w].Running?
         case WorkerRetire(w) => s.workers[w] == HoldingPill
         case WorkerSpurious(w) => s.workers[w] == Blocked
    else
      && step.c < |s.clients|
      && match step
         case Submit(c) => s.clients[c] == Idle
         // the signal wakes one blocked worker, whichever, or nobody if none is blocked
         case Signal(c, target) =>
           s.clients[c] == Signalling && (Blocked in s.workers ==> target < |s.workers| && s.workers[target] == Blocked)
         case Shutdown(c) => s.clients[c] == Idle
         case ShutdownCheck(c) => s.clients[c] == ShutAwake
         case ShutdownSpurious(c) => s.clients[c] == ShutBlocked
  }

  function WakeWorker(pc: WorkerPc): WorkerPc {
    if pc == Blocked then Checking else pc
  }

  function WakeClient(pc: ClientPc): ClientPc {
    if pc == ShutBlocked then ShutAwake else pc
  }

  function ApplyCheck(s: State, w: nat): State
    requires Enabled(s, WorkerCheck(w))
  {
    if s.sh.queue == [] then s.(workers := s.workers[w := Blocked])
    else
      var rest := s.sh.(queue := s.sh.queue[1..]);
      match s.sh.queue[0]
      case Work(n) => s.(sh := rest, workers := s.workers[w := Running(n)], taken := s.taken + 1)
      case Pill => s.(sh := rest, workers := s.workers[w := HoldingPill])
  }

  function ApplyRetire(s: State, w: nat): State
    requires Enabled(s, WorkerRetire(w))
  {
    var sh := RetireSpec(s.sh);
    var gone := s.(sh := sh, workers := s.workers[w := Terminated]);
    if sh.remaining == 0 then gone.(clients := Map(s.clients, WakeClient), completions := s.completions + 1) else gone
  }

  function ApplyShutdown(s: State, c: nat): State
    requires Enabled(s, Shutdown(c))
  {
    if s.sh.inShutdown then s
    else
      s.(sh := ShutdownSpec(s.sh), workers := Map(s.workers, WakeWorker), atShutdown := s.accepted,
         clients := s.clients[c := if s.sh.shutdownDone then ShutLeft else ShutBlocked])
  }

  function Apply(s: State, step: Step): State
    requires Enabled(s, step)
  {
    match step
    case WorkerCheck(w) => ApplyCheck(s, w)
    case WorkerFinish(w) =>
      s.(workers := s.workers[w := Checking], finished := s.finished + multiset{s.workers[w].n})
    case WorkerRetire(w) => ApplyRetire(s, w)
    case WorkerSpurious(w) => s.(workers := s.workers[w := Checking])
    case Submit(c) =>
      if s.sh.inShutdown then s
      else s.(sh := SubmitSpec(s.sh, s.accepted), clients := s.clients[c := Signalling], accepted := s.accepted + 1)
    case Signal(c, target) =>
      var quiet := s.(clients := s.clients[c := Idle]);
      if Blocked in s.workers then quiet.(workers := s.workers[target := Checking]) else quiet
    case Shutdown(c) => ApplyShutdown(s, c)
    case ShutdownCheck(c) => s.(clients := s.clients[c := if s.sh.shutdownDone then ShutLeft else ShutBlocked])
    case ShutdownSpurious(c) => s.(clients := s.clients[c := ShutAwake])
  }

  ghost predicate Run(s: State, steps: seq<Step>, s': State)
    decreases |steps|
  {
    if steps == [] then s == s' else Enabled(s, steps[0]) && Run(Apply(s, steps[0]), steps[1..], s')
  }

  // ----- The invariant -----

  predicate IsChecking(pc: WorkerPc) { pc == Checking }
  predicate IsBlocked(pc: WorkerPc) { pc == Blocked }
  predicate IsRunning(pc: WorkerPc) { pc.Running? }
  predicate IsHolding(pc: WorkerPc) { pc == HoldingPill }
  predicate IsTerminated(pc: WorkerPc) { pc == Terminated }
  predicate IsSignalling(pc: ClientPc) { pc == Signalling }
  predicate InShut(pc: ClientPc) { pc == ShutBlocked || pc == ShutAwake || pc == ShutLeft }
  function RunningItem(n: nat): WorkerPc -> bool { (pc: WorkerPc) => pc == Running(n) }

  /** Pills in the queue. */
  function QueuedPills(s: State): int {
    |s.sh.queue| - (s.accepted - s.taken)
  }

  /** The queue is the accepted and not yet taken work, in order, then the pills. */
  ghost predicate QueueInv(s: State) {
    && s.taken <= s.accepted && 0 <= QueuedPills(s)
    && (forall i :: 0 <= i < |s.sh.queue| ==>
          s.sh.queue[i] == if i < s.accepted - s.taken then Work(s.taken + i) else Pill)
  }

  /** Every pill is queued, held, or has ended a worker. */
  ghost predicate PillCount(s: State) {
    && |s.workers| == s.sh.nthreads
    && s.sh.remaining == s.sh.nthreads - Count(s.workers, IsTerminated)
    && QueuedPills(s) + Count(s.workers, IsHolding) + Count(s.workers, IsTerminated) ==
         (if s.sh.inShutdown then s.sh.nthreads else 0)
    && (Count(s.workers, IsHolding) + Count(s.workers, IsTerminated) > 0 ==> s.taken == s.accepted)
    && (s.sh.shutdownDone <==> s.sh.inShutdown && s.sh.remaining == 0 < s.sh.nthreads)
    && s.completions == if s.sh.shutdownDone then 1 else 0
  }

  /** In the shutdown nobody sleeps and nothing more is accepted. */
  ghost predicate PillInv(s: State) {
    && PillCount(s)
    && (s.sh.inShutdown ==> Count(s.workers, IsBlocked) == 0 && s.accepted == s.atShutdown)
  }

  /** Every item taken is being run by one worker or has been run to its end, once. */
  ghost predicate ItemInv(s: State) {
    forall n: nat :: s.finished[n] + Count(s.workers, RunningItem(n)) == if n < s.taken then 1 else 0
  }

  /** No lost work: a worker sleeps only if signals on their way and workers about to look cover the queue. */
  ghost predicate WakeInv(s: State) {
    Count(s.workers, IsBlocked) > 0 ==> |s.sh.queue| <= Count(s.clients, IsSignalling) + Count(s.workers, IsChecking)
  }

  ghost predicate ShutInv(s: State) {
    && Count(s.clients, InShut) == (if s.sh.inShutdown then 1 else 0)
    && (ShutBlocked in s.clients ==> !s.sh.shutdownDone)
    && (ShutLeft in s.clients ==> s.sh.shutdownDone)
  }

  ghost predicate Inv(s: State) {
    QueueInv(s) && PillInv(s) && ItemInv(s) && WakeInv(s) && ShutInv(s)
  }

  lemma StartInv(s: State)
    requires IsStart(s)
    ensures Inv(s)
  {
    CountNone(s.workers, IsHolding);
    CountNone(s.workers, IsTerminated);
    CountNone(s.workers, IsBlocked);
    CountNone(s.clients, InShut);
    forall n: nat {
      CountNone(s.workers, RunningItem(n));
    }
  }

  /** How a step changes the number of workers satisfying `p`, a property that being woken does not change. */
  lemma WorkersAfter(s: State, step: Step, p: WorkerPc -> bool)
    requires Enabled(s, step) && p(Blocked) == p(Checking)
    ensures Count(Apply(s, step).workers, p) == Count(s.workers, p)
              + if IsWorkerStep(step) then Value(p(Apply(s, step).workers[step.w])) - Value(p(s.workers[step.w])) else 0
  {
    var s' := Apply(s, step);
    match step
    case WorkerCheck(w) => CountUpdate(s.workers, w, s'.workers[w], p);
    case WorkerFinish(w) => CountUpdate(s.workers, w, Checking, p);
    case WorkerRetire(w) => CountUpdate(s.workers, w, Terminated, p);
    case WorkerSpurious(w) => CountUpdate(s.workers, w, Checking, p);
    case Signal(_, target) =>
      if Blocked in s.workers {
        CountUpdate(s.workers, target, Checking, p);
      }
    case Shutdown(_) => CountMap(s.workers, WakeWorker, p, p);
    case _ =>
  }

  /** The number of clients satisfying `p`, a property that being woken does not change. */
  lemma ClientsAfter(s: State, step: Step, p: ClientPc -> bool)
    requires Enabled(s, step) && p(ShutBlocked) == p(ShutAwake) == p(ShutLeft)
    ensures Count(Apply(s, step).clients, p) == Count(s.clients, p)
              + (if step.Submit? && !s.sh.inShutdown then Value(p(Signalling)) - Value(p(Idle)) else 0)
              + (if step.Signal? then Value(p(Idle)) - Value(p(Signalling)) else 0)
              + (if step.Shutdown? && !s.sh.inShutdown then Value(p(ShutBlocked)) - Value(p(Idle)) else 0)
  {
    match step
    case WorkerRetire(_) => CountMap(s.clients, WakeClient, p, p);
    case WorkerCheck(_) =>
    case WorkerFinish(_) =>
    case WorkerSpurious(_) =>
    case _ =>
      var s' := Apply(s, step);
      CountUpdate(s.clients, step.c, s'.clients[step.c], p);
      assert s'.clients == s.clients[step.c := s'.clients[step.c]];
  }

  function Value(b: bool): int { if b then 1 else 0 }

  predicate HasPill(pc: WorkerPc) { pc == HoldingPill || pc == Terminated }

  /** During the shutdown a worker that looks at the queue finds something in it. */
  lemma NoOneStarves(s: State, w: nat)
    requires QueueInv(s) && PillInv(s) && s.sh.inShutdown && w < |s.workers| && !HasPill(s.workers[w])
    ensures QueuedPills(s) > 0 && s.sh.queue != []
  {
    CountDisjoint(s.workers, IsHolding, IsTerminated, HasPill);
    CountEvery(s.workers, HasPill);
  }

  lemma StepKeepsQueue(s: State, step: Step)
    requires QueueInv(s) && PillCount(s) && Enabled(s, step)
    ensures QueueInv(Apply(s, step))
  {
  }

  lemma WorkerKeepsPillCount(s: State, step: Step)
    requires QueueInv(s) && PillCount(s) && Enabled(s, step) && IsWorkerStep(step)
    ensures PillCount(Apply(s, step))
  {
    WorkersAfter(s, step, IsHolding);
    WorkersAfter(s, step, IsTerminated);
  }

  lemma ClientKeepsPillCount(s: State, step: Step)
    requires QueueInv(s) && PillCount(s) && Enabled(s, step) && !IsWorkerStep(step)
    ensures PillCount(Apply(s, step))
  {
    WorkersAfter(s, step, IsHolding);
    WorkersAfter(s, step, IsTerminated);
  }

  lemma StepKeepsPills(s: State, step: Step)
    requires Inv(s) && Enabled(s, step)
    ensures PillInv(Apply(s, step))
  {
    if IsWorkerStep(step) {
      WorkerKeepsPillCount(s, step);
    } else {
      ClientKeepsPillCount(s, step);
    }
    StaysAwake(s, step);
  }

  /** Once the shutdown has begun no worker ever blocks on has_work again. */
  lemma StaysAwake(s: State, step: Step)
    requires QueueInv(s) && PillInv(s) && Enabled(s, step)
    ensures Apply(s, step).sh.inShutdown ==> Count(Apply(s, step).workers, IsBlocked) == 0
  {
    CountNone(s.workers, IsBlocked);
    CountNone(Apply(s, step).workers, IsBlocked);
    if step.WorkerCheck? && s.sh.inShutdown {
      NoOneStarves(s, step.w);
    }
  }

  lemma StepKeepsItems(s: State, step: Step)
    requires QueueInv(s) && ItemInv(s) && Enabled(s, step)
    ensures ItemInv(Apply(s, step))
  {
    var s' := Apply(s, step);
    forall n: nat
      ensures s'.finished[n] + Count(s'.workers, RunningItem(n)) == if n < s'.taken then 1 else 0
    {
      WorkersAfter(s, step, RunningItem(n));
    }
  }

  lemma StepKeepsWake(s: State, step: Step)
    requires WakeInv(s) && Enabled(s, step)
    ensures WakeInv(Apply(s, step))
  {
    var s' := Apply(s, step);
    ClientsAfter(s, step, IsSignalling);
    if IsWorkerStep(step) {
      CountUpdate(s.workers, step.w, s'.workers[step.w], IsBlocked);
      CountUpdate(s.workers, step.w, s'.workers[step.w], IsChecking);
    } else if step.Signal? {
      CountNone(s.workers, IsBlocked);
      if Blocked in s.workers {
        CountUpdate(s.workers, step.target, Checking, IsBlocked);
        CountUpdate(s.workers, step.target, Checking, IsChecking);
      }
    } else if step.Shutdown? {
      CountNone(s'.workers, IsBlocked);
    }
  }

  lemma StepKeepsShut(s: State, step: Step)
    requires ShutInv(s) && PillCount(s) && Enabled(s, step)
    ensures ShutInv(Apply(s, step))
  {
    ClientsAfter(s, step, InShut);
    CountNone(s.clients, InShut);
  }

  lemma StepKeepsInv(s: State, step: Step)
    requires Inv(s) && Enabled(s, step)
    ensures Inv(Apply(s, step))
  {
    StepKeepsQueue(s, step);
    StepKeepsPills(s, step);
    StepKeepsItems(s, step);
    StepKeepsWake(s, step);
    StepKeepsShut(s, step);
  }

  lemma {:induction false} RunKeepsInv(s: State, steps: seq<Step>, s': State)
    requires Inv(s) && Run(s, steps, s')
    ensures Inv(s') && s'.sh.nthreads == s.sh.nthreads && (s.sh.inShutdown ==> s'.sh.inShutdown)
    ensures s.sh.inShutdown ==> s'.accepted == s.accepted
    decreases |steps|
  {
    if steps != [] {
      StepKeepsInv(s, steps[0]);
      RunKeepsInv(Apply(s, steps[0]), steps[1..], s');
    }
  }

  // ----- What the pool promises -----

  /** No lost work: as long as a worker sleeps, what is queued is covered by clients that have unlocked and will
      signal, and by workers that are about to look at the queue. */
  lemma NoLostWork(s: State, steps: seq<Step>, s': State)
    requires IsStart(s) && Run(s, steps, s')
    ensures Blocked in s'.workers ==>
              |s'.sh.queue| <= Count(s'.clients, IsSignalling) + Count(s'.workers, IsChecking)
  {
    StartInv(s);
    RunKeepsInv(s, steps, s');
    CountNone(s'.workers, IsBlocked);
  }

  /** Shutdown drains. When the caller of `tp_shutdown` is past its wait loop, every item accepted before the
      shutdown has been run to completion exactly once, nothing was accepted later, the queue is empty and every
      worker has taken its pill and gone. */
  lemma ShutdownDrains(s: State, steps: seq<Step>, s': State)
    requires IsStart(s) && Run(s, steps, s') && ShutLeft in s'.clients
    ensures s'.accepted == s'.atShutdown
    ensures forall n: nat :: s'.finished[n] == if n < s'.accepted then 1 else 0
    ensures s'.sh.queue == []
    ensures forall w :: 0 <= w < |s'.workers| ==> s'.workers[w] == Terminated
  {
    StartInv(s);
    RunKeepsInv(s, steps, s');
    CountEvery(s'.workers, IsTerminated);
    forall n: nat
      ensures s'.finished[n] == if n < s'.accepted then 1 else 0
    {
      CountNone(s'.workers, RunningItem(n));
    }
  }

  // ----- Shutdown always completes -----

  /** Once in shutdown, the number of worker steps still to come: two for each queued item, one for each item in
      a worker's hands. */
  function Remaining(s: State): nat {
    2 * |s.sh.queue| + Count(s.workers, IsRunning) + Count(s.workers, IsHolding)
  }

  function WorkerSteps(steps: seq<Step>): nat {
    if steps == [] then 0 else (if IsWorkerStep(steps[0]) then 1 else 0) + WorkerSteps(steps[1..])
  }

  lemma StepUsesOne(s: State, step: Step)
    requires Inv(s) && s.sh.inShutdown && Enabled(s, step)
    ensures Remaining(s) == Remaining(Apply(s, step)) + if IsWorkerStep(step) then 1 else 0
  {
    WorkersAfter(s, step, IsRunning);
    WorkersAfter(s, step, IsHolding);
    CountNone(s.workers, IsBlocked);
    if step.WorkerCheck? {
      NoOneStarves(s, step.w);
    }
  }

  /** Every worker step of the shutdown counts down `Remaining` by exactly one, and no other step changes it. */
  lemma {:induction false} ShutdownCountsDown(s: State, steps: seq<Step>, s': State)
    requires Inv(s) && s.sh.inShutdown && Run(s, steps, s')
    ensures Remaining(s) == WorkerSteps(steps) + Remaining(s')
    decreases |steps|
  {
    if steps != [] {
      StepUsesOne(s, steps[0]);
      StepKeepsInv(s, steps[0]);
      ShutdownCountsDown(Apply(s, steps[0]), steps[1..], s');
    }
  }

  /** While `Remaining` is positive some worker can take its next step; at zero the shutdown is done. This needs
      a pool with at least one worker. */
  lemma ShutdownNeverStalls(s: State)
    requires Inv(s) && s.sh.inShutdown && s.sh.nthreads > 0
    ensures Remaining(s) > 0 ==> exists step :: IsWorkerStep(step) && Enabled(s, step)
    ensures Remaining(s) == 0 <==> s.sh.shutdownDone
  {
    CountNone(s.workers, IsBlocked);
    CountEvery(s.workers, IsTerminated);
    CountNone(s.workers, IsRunning);
    CountNone(s.workers, IsHolding);
    if w: nat :| w < |s.workers| && s.workers[w] != Terminated {
      if Remaining(s) == 0 {
        NoOneStarves(s, w);
      }
      assert Enabled(s, WorkerCheck(w)) || Enabled(s, WorkerFinish(w)) || Enabled(s, WorkerRetire(w));
    }
  }

  /** From any state of the shutdown the worker steps lead to its end. */
  lemma {:induction false} FinishShutdown(s: State) returns (steps: seq<Step>, s': State)
    requires Inv(s) && s.sh.inShutdown && s.sh.nthreads > 0
    ensures Run(s, steps, s') && s'.sh.shutdownDone
    decreases Remaining(s)
  {
    ShutdownNeverStalls(s);
    if Remaining(s) == 0 {
      steps, s' := [], s;
    } else {
      var step :| IsWorkerStep(step) && Enabled(s, step);
      StepUsesOne(s, step);
      StepKeepsInv(s, step);
      var rest;
      rest, s' := FinishShutdown(Apply(s, step));
      steps := [step] + rest;
      assert steps[1..] == rest;
    }
  }

  /** Shutdown completes, in exactly as many worker steps as `Remaining` says and whatever else happens in
      between, provided the pool has a worker; with none the caller of `tp_shutdown` waits for ever. When it is done
      it has been done once, and the caller is awake. */
  lemma ShutdownCompletes(s0: State, before: seq<Step>, s: State, steps: seq<Step>, s': State)
    requires IsStart(s0) && Run(s0, before, s) && s.sh.inShutdown && Run(s, steps, s')
    ensures WorkerSteps(steps) <= Remaining(s)
    ensures s'.sh.shutdownDone <==> s.sh.nthreads > 0 && WorkerSteps(steps) == Remaining(s)
    ensures s'.sh.shutdownDone ==> s'.completions == 1 && (ShutAwake in s'.clients || ShutLeft in s'.clients)
    ensures (exists more, end :: Run(s, more, end) && end.sh.shutdownDone) <==> s.sh.nthreads > 0
  {
    StartInv(s0);
    RunKeepsInv(s0, before, s);
    RunKeepsInv(s, steps, s');
    ShutdownCountsDown(s, steps, s');
    CountNone(s'.clients, InShut);
    if s.sh.nthreads > 0 {
      ShutdownNeverStalls(s');
      var more, end := FinishShutdown(s);
      assert Run(s, more, end) && end.sh.shutdownDone;
      assert exists more, end :: Run(s, more, end) && end.sh.shutdownDone;
    } else {
      forall more, end | Run(s, more, end)
        ensures !end.sh.shutdownDone
      {
        RunKeepsInv(s, more, end);
      }
    }
  }

  // ----- The caller of tp_shutdown comes back -----

  /** The wait loop lets its caller go exactly when there is a worker and all workers have terminated. */
  lemma ShutdownCheckReleasesExactly(s: State, steps: seq<Step>, s': State, c: nat)
    requires IsStart(s) && Run(s, steps, s') && Enabled(s', ShutdownCheck(c))
    ensures Apply(s', ShutdownCheck(c)).clients[c] == ShutLeft
       <==> |s'.workers| > 0 && forall w :: 0 <= w < |s'.workers| ==> s'.workers[w] == Terminated
  {
    StartInv(s);
    RunKeepsInv(s, steps, s');
    CountEvery(s'.workers, IsTerminated);
    CountNone(s'.clients, InShut);
  }

  lemma RunFirst(s: State, step: Step, rest: seq<Step>, s': State)
    requires Enabled(s, step) && Run(Apply(s, step), rest, s')
    ensures Run(s, [step] + rest, s')
  {
    assert ([step] + rest)[1..] == rest;
  }

  lemma {:induction false} RunsJoin(s: State, first: seq<Step>, mid: State, second: seq<Step>, s': State)
    requires Run(s, first, mid) && Run(mid, second, s')
    ensures Run(s, first + second, s')
    decreases |first|
  {
    if first == [] {
      assert first + second == second;
    } else {
      RunsJoin(Apply(s, first[0]), first[1..], mid, second, s');
      RunFirst(s, first[0], first[1..] + second, s');
      assert first + second == [first[0]] + (first[1..] + second);
    }
  }

  /** Once the workers have gone the caller needs one more test at most. */
  lemma LeaveShutdown(s: State) returns (steps: seq<Step>, s': State)
    requires Inv(s) && s.sh.shutdownDone
    ensures Run(s, steps, s') && ShutLeft in s'.clients
  {
    CountNone(s.clients, InShut);
    var c: nat :| c < |s.clients| && InShut(s.clients[c]);
    if s.clients[c] == ShutLeft {
      steps, s' := [], s;
    } else {
      steps, s' := [ShutdownCheck(c)], Apply(s, ShutdownCheck(c));
      assert s'.clients[c] == ShutLeft && steps[1..] == [];
    }
  }

  /** From every state of a shutdown its caller can come to return exactly when the pool has a worker. */
  lemma ShutdownReturnsExactly(s0: State, before: seq<Step>, s: State)
    requires IsStart(s0) && Run(s0, before, s) && s.sh.inShutdown
    ensures (exists more, end :: Run(s, more, end) && ShutLeft in end.clients) <==> s.sh.nthreads > 0
  {
    StartInv(s0);
    RunKeepsInv(s0, before, s);
    if s.sh.nthreads > 0 {
      var first, mid := FinishShutdown(s);
      RunKeepsInv(s, first, mid);
      var second, end := LeaveShutdown(mid);
      RunsJoin(s, first, mid, second, end);
      assert exists more, end :: Run(s, more, end) && ShutLeft in end.clients;
    } else {
      forall more, end | Run(s, more, end)
        ensures ShutLeft !in end.clients
      {
        RunKeepsInv(s, more, end);
      }
    }
  }

  /** The only steps that change nothing are a refused submission and a second shutdown. */
  lemma StepIsIdleExactly(s: State, step: Step)
    requires Enabled(s, step)
    ensures Apply(s, step) == s <==> s.sh.inShutdown && (step.Submit? || step.Shutdown?)
  {
    match step
    case WorkerCheck(w) => assert Apply(s, step).workers[w] != s.workers[w];
    case WorkerFinish(w) => assert Apply(s, step).workers[w] != s.workers[w];
    case WorkerRetire(w) => assert Apply(s, step).workers[w] != s.workers[w];
    case WorkerSpurious(w) => assert Apply(s, step).workers[w] != s.workers[w];
    case Submit(_) =>
    case Signal(c, _) => assert Apply(s, step).clients[c] != s.clients[c];
    case Shutdown(_) =>
    case ShutdownCheck(c) => assert Apply(s, step).clients[c] != s.clients[c];
    case ShutdownSpurious(c) => assert Apply(s, step).clients[c] != s.clients[c];
  }

  /** Both waits may return at any time, with all that the mutex protects as it was. */
  lemma AnyWaitMayReturn(s: State, i: nat)
    ensures i < |s.workers| && s.workers[i] == Blocked ==>
              && Enabled(s, WorkerSpurious(i))
              && Apply(s, WorkerSpurious(i)) == s.(workers := s.workers[i := Checking])
    ensures i < |s.clients| && s.clients[i] == ShutBlocked ==>
              && Enabled(s, ShutdownSpurious(i))
              && Apply(s, ShutdownSpurious(i)) == s.(clients := s.clients[i := ShutAwake])
  {
  }
}
