/** The user-level runtime as a whole: threads that create, yield, exit, and block on any number of manual-reset events
    and semaphores. Only the running thread acts. */
module Runtime {
  import opened Threads
  import opened Scheduler
  import Semaphore

  /** A manual-reset event. */
  datatype Event = Event(signaled: bool, waiters: seq<Tid>)

  function EventWaitSpec(e: Event, t: Tid): (Event, bool) {
    if e.signaled then (e, false) else (e.(waiters := e.waiters + [t]), true)
  }

  function EventSetSpec(e: Event): Event {
    Event(true, [])
  }

  function EventClearSpec(e: Event): Event {
    e.(signaled := false)
  }

  class EventObject {
    var signaled: bool
    var waiters: seq<Tid>

    ghost function View(): Event
      reads this
    {
      Event(signaled, waiters)
    }

    constructor (initial: bool)
      ensures View() == Event(initial, [])
    {
      signaled, waiters := initial, [];
    }

    method Wait(sched: SchedulerObject)
      modifies this, sched
      ensures View() == EventWaitSpec(old(View()), old(sched.running)).0
      ensures sched.View() == if old(signaled) then old(sched.View()) else Switch(old(sched.View()))
    {
      if signaled {
        return;
      }
      waiters := waiters + [sched.running];
      sched.Schedule();
    }

    /** Every waiter goes to the ready queue, once and in the order of arrival. */
    method Set(sched: SchedulerObject)
      modifies this, sched
      ensures View() == EventSetSpec(old(View()))
      ensures sched.running == old(sched.running) && sched.ready == old(sched.ready) + old(waiters)
    {
      signaled := true;
      ghost var ready, all := sched.ready, waiters;
      ghost var k := 0;
      while waiters != []
        invariant signaled && k <= |all| && waiters == all[k..]
        invariant sched.running == old(sched.running) && sched.ready == ready + all[..k]
        decreases |waiters|
      {
        var head := waiters[0];
        waiters := waiters[1..];
        sched.UtActivate(head);
        k := k + 1;
      }
      assert all[..k] == all;
    }

    method Clear()
      modifies this
      ensures View() == EventClearSpec(old(View()))
    {
      signaled := false;
    }
  }

  /** Something a thread can block on. */
  datatype Sync = EventSync(event: Event) | SemSync(sem: Semaphore.Sem)

  function Waiters(x: Sync): seq<Tid> {
    match x case EventSync(e) => e.waiters case SemSync(sem) => Semaphore.Threads(sem.waiters)
  }

  /** `live` marks the user threads that have been created and have not exited; thread numbers are not used again. */
  datatype State = State(sched: Sched, live: seq<bool>, syncs: seq<Sync>)

  datatype Step =
    | Create | UtRun | YieldStep | Exit
    | EventWait(i: nat) | EventSet(i: nat) | EventClear(i: nat)
    | SemWait(i: nat, n: nat) | SemPost(i: nat, n: nat)

  predicate IsStart(s: State) {
    && s.sched == Sched(MAIN, []) && s.live == [false]
    && forall i :: 0 <= i < |s.syncs| ==> Waiters(s.syncs[i]) == []
  }

  /** While main runs it creates threads and calls `ut_run`; everything else is done by a user thread. */
  predicate Enabled(s: State, step: Step) {
    && (step.Create? || (step.UtRun? <==> s.sched.running == MAIN))
    && (s.sched.running < |s.live|)
    && match step
       case EventWait(i) => i < |s.syncs| && s.syncs[i].EventSync?
       case EventSet(i) => i < |s.syncs| && s.syncs[i].EventSync?
       case EventClear(i) => i < |s.syncs| && s.syncs[i].EventSync?
       case SemWait(i, _) => i < |s.syncs| && s.syncs[i].SemSync?
       case SemPost(i, _) => i < |s.syncs| && s.syncs[i].SemSync?
       case _ => true
  }

  function Put(s: State, i: nat, x: Sync): State
    requires i < |s.syncs|
  {
    s.(syncs := s.syncs[i := x])
  }

  function ActivateAll(s: Sched, threads: seq<Tid>): Sched {
    s.(ready := s.ready + threads)
  }

  function Apply(s: State, step: Step): State
    requires Enabled(s, step)
  {
    match step
    case Create => s.(sched := Activate(s.sched, |s.live|), live := s.live + [true])
    case UtRun => s.(sched := Switch(s.sched))
    case YieldStep => s.(sched := Yield(s.sched))
    case Exit => s.(sched := Switch(s.sched), live := s.live[s.sched.running := false])
    case EventWait(i) =>
      var (e, blocked) := EventWaitSpec(s.syncs[i].event, s.sched.running);
      Put(s, i, EventSync(e)).(sched := if blocked then Switch(s.sched) else s.sched)
    case EventSet(i) =>
      var e := s.syncs[i].event;
      Put(s, i, EventSync(EventSetSpec(e))).(sched := ActivateAll(s.sched, e.waiters))
    case EventClear(i) => Put(s, i, EventSync(EventClearSpec(s.syncs[i].event)))
    case SemWait(i, n) =>
      var sem := s.syncs[i].sem;
      Put(s, i, SemSync(Semaphore.AfterWait(sem, s.sched.running, n)))
        .(sched := if Semaphore.MustBlock(sem, n) then Switch(s.sched) else s.sched)
    case SemPost(i, n) =>
      var sem := s.syncs[i].sem;
      Put(s, i, SemSync(Semaphore.AfterPost(sem, n)))
        .(sched := ActivateAll(s.sched, Semaphore.Threads(Semaphore.Woken(sem, n))))
  }

  ghost predicate Run(s: State, steps: seq<Step>, s': State)
    decreases |steps|
  {
    if steps == [] then s == s' else Enabled(s, steps[0]) && Run(Apply(s, steps[0]), steps[1..], s')
  }

  // ----- Where each thread is -----

  /** How often a wait list holds thread `t`. */
  function Holds(t: Tid): Sync -> int {
    (x: Sync) => multiset(Waiters(x))[t]
  }

  function Waiting(syncs: seq<Sync>, t: Tid): nat {
    TotalZero(syncs, Holds(t));
    Total(syncs, Holds(t))
  }

  /** The places of a thread: running, ready, or in a wait list. */
  function PlacesOf(s: State, t: Tid): nat {
    Occurs(s.sched, t) + Waiting(s.syncs, t)
  }

  /** Every live user thread is in exactly one place, everybody else in none; a signaled event has no waiters. */
  ghost predicate Inv(s: State) {
    && |s.live| > 0 && !s.live[MAIN] && s.sched.running < |s.live|
    && (forall t: Tid :: PlacesOf(s, t) == if t < |s.live| && s.live[t] then 1 else 0)
    && EventsInv(s)
  }

  predicate EventsInv(s: State) {
    forall i :: 0 <= i < |s.syncs| && s.syncs[i].EventSync? && s.syncs[i].event.signaled ==>
      s.syncs[i].event.waiters == []
  }

  lemma StepKeepsEvents(s: State, step: Step)
    requires Inv(s) && Enabled(s, step)
    ensures EventsInv(Apply(s, step)) && |Apply(s, step).live| > 0 && !Apply(s, step).live[MAIN]
  {
  }

  lemma StartInv(s: State)
    requires IsStart(s)
    ensures Inv(s)
  {
    forall t: Tid
      ensures PlacesOf(s, t) == 0
    {
      TotalZero(s.syncs, Holds(t));
    }
  }

  lemma ActivateAllOccurs(s: Sched, threads: seq<Tid>, t: Tid)
    ensures Occurs(ActivateAll(s, threads), t) == Occurs(s, t) + multiset(threads)[t]
  {
    assert Places(ActivateAll(s, threads)) == Places(s) + threads;
  }

  lemma MainIsNotReady(s: State)
    requires Inv(s)
    ensures MAIN !in s.sched.ready
  {
    assert PlacesOf(s, MAIN) == 0;
  }

  /** A step leaves every thread in as many places as before, unless it creates or ends the thread. */
  lemma SchedulingKeepsPlaces(s: State, step: Step, t: Tid)
    requires Inv(s) && Enabled(s, step) && (step.Create? || step.YieldStep? || step.Exit?)
    ensures PlacesOf(Apply(s, step), t) == PlacesOf(s, t)
              + (if step.Create? && t == |s.live| then 1 else 0)
              - (if step.Exit? && t == s.sched.running then 1 else 0)
  {
    MainIsNotReady(s);
    match step
    case Create => ActivateOccurs(s.sched, |s.live|, t);
    case YieldStep => YieldOccurs(s.sched, t);
    case Exit => SwitchOccurs(s.sched, t);
  }

  lemma EventWaitKeepsPlaces(s: State, i: nat, t: Tid)
    requires Inv(s) && Enabled(s, EventWait(i))
    ensures PlacesOf(Apply(s, EventWait(i)), t) == PlacesOf(s, t)
  {
    var e := EventWaitSpec(s.syncs[i].event, s.sched.running).0;
    MainIsNotReady(s);
    SwitchOccurs(s.sched, t);
    EventWaitJoins(s.syncs[i].event, s.sched.running, t);
    TotalUpdate(s.syncs, i, EventSync(e), Holds(t));
  }

  lemma EventWaitJoins(e: Event, u: Tid, t: Tid)
    ensures var (e', blocked) := EventWaitSpec(e, u);
            Holds(t)(EventSync(e')) == Holds(t)(EventSync(e)) + if blocked && t == u then 1 else 0
  {
    assert multiset(e.waiters + [u])[t] == multiset(e.waiters)[t] + multiset([u])[t];
  }

  lemma EventSetKeepsPlaces(s: State, i: nat, t: Tid)
    requires Enabled(s, EventSet(i))
    ensures PlacesOf(Apply(s, EventSet(i)), t) == PlacesOf(s, t)
  {
    TotalUpdate(s.syncs, i, EventSync(EventSetSpec(s.syncs[i].event)), Holds(t));
    ActivateAllOccurs(s.sched, s.syncs[i].event.waiters, t);
  }

  lemma EventClearKeepsPlaces(s: State, i: nat, t: Tid)
    requires Enabled(s, EventClear(i))
    ensures PlacesOf(Apply(s, EventClear(i)), t) == PlacesOf(s, t)
  {
    TotalUpdate(s.syncs, i, EventSync(EventClearSpec(s.syncs[i].event)), Holds(t));
  }

  lemma SemWaitKeepsPlaces(s: State, i: nat, n: nat, t: Tid)
    requires Inv(s) && Enabled(s, SemWait(i, n))
    ensures PlacesOf(Apply(s, SemWait(i, n)), t) == PlacesOf(s, t)
  {
    var sem := s.syncs[i].sem;
    MainIsNotReady(s);
    SwitchOccurs(s.sched, t);
    WaitJoins(sem, s.sched.running, n, t);
    TotalUpdate(s.syncs, i, SemSync(Semaphore.AfterWait(sem, s.sched.running, n)), Holds(t));
  }

  lemma WaitJoins(sem: Semaphore.Sem, u: Tid, n: nat, t: Tid)
    ensures Holds(t)(SemSync(Semaphore.AfterWait(sem, u, n)))
         == Holds(t)(SemSync(sem)) + if Semaphore.MustBlock(sem, n) && t == u then 1 else 0
  {
    assert Semaphore.Threads(sem.waiters + [Semaphore.Waiter(u, n)]) == Semaphore.Threads(sem.waiters) + [u];
  }

  lemma SemPostKeepsPlaces(s: State, i: nat, n: nat, t: Tid)
    requires Enabled(s, SemPost(i, n))
    ensures PlacesOf(Apply(s, SemPost(i, n)), t) == PlacesOf(s, t)
  {
    var sem := s.syncs[i].sem;
    PostMovesThreads(sem, n, t);
    TotalUpdate(s.syncs, i, SemSync(Semaphore.AfterPost(sem, n)), Holds(t));
    ActivateAllOccurs(s.sched, Semaphore.Threads(Semaphore.Woken(sem, n)), t);
  }

  lemma PostMovesThreads(sem: Semaphore.Sem, n: nat, t: Tid)
    ensures Holds(t)(SemSync(sem))
         == multiset(Semaphore.Threads(Semaphore.Woken(sem, n)))[t] + Holds(t)(SemSync(Semaphore.AfterPost(sem, n)))
  {
    Semaphore.PostLeavesHeadBlocked(sem, n);
    ThreadsConcat(Semaphore.Woken(sem, n), Semaphore.AfterPost(sem, n).waiters);
  }

  lemma ThreadsConcat(a: seq<Semaphore.Waiter>, b: seq<Semaphore.Waiter>)
    ensures Semaphore.Threads(a + b) == Semaphore.Threads(a) + Semaphore.Threads(b)
  {
  }

  lemma UtRunKeepsPlaces(s: State, t: Tid)
    requires Inv(s) && Enabled(s, UtRun)
    ensures PlacesOf(Apply(s, UtRun), t) == PlacesOf(s, t)
  {
    MainIsNotReady(s);
    if s.sched.ready != [] {
      ReadySplits(s.sched.ready, t);
      assert s.sched.ready[0] in s.sched.ready;
    }
  }

  lemma StepKeepsPlaces(s: State, step: Step, t: Tid)
    requires Inv(s) && Enabled(s, step)
    ensures var s' := Apply(s, step); PlacesOf(s', t) == if t < |s'.live| && s'.live[t] then 1 else 0
  {
    match step
    case Create => SchedulingKeepsPlaces(s, step, t);
    case UtRun => UtRunKeepsPlaces(s, t);
    case YieldStep => SchedulingKeepsPlaces(s, step, t);
    case Exit =>
      SchedulingKeepsPlaces(s, step, t);
      RunningOccurs(s.sched);
    case EventWait(i) => EventWaitKeepsPlaces(s, i, t);
    case EventSet(i) => EventSetKeepsPlaces(s, i, t);
    case EventClear(i) => EventClearKeepsPlaces(s, i, t);
    case SemWait(i, n) => SemWaitKeepsPlaces(s, i, n, t);
    case SemPost(i, n) => SemPostKeepsPlaces(s, i, n, t);
  }

  lemma RunningIsLive(s: State)
    requires |s.live| > 0 && forall t: Tid :: PlacesOf(s, t) == if t < |s.live| && s.live[t] then 1 else 0
    ensures s.sched.running < |s.live|
    ensures s.sched.running != MAIN ==> s.live[s.sched.running] && Waiting(s.syncs, s.sched.running) == 0
  {
    if s.sched.running != MAIN {
      RunningOccurs(s.sched);
      assert PlacesOf(s, s.sched.running) > 0;
    }
  }

  lemma StepKeepsInv(s: State, step: Step)
    requires Inv(s) && Enabled(s, step)
    ensures Inv(Apply(s, step))
  {
    var s' := Apply(s, step);
    forall t: Tid
      ensures PlacesOf(s', t) == if t < |s'.live| && s'.live[t] then 1 else 0
    {
      StepKeepsPlaces(s, step, t);
    }
    StepKeepsEvents(s, step);
    RunningIsLive(s');
  }

  lemma {:induction false} RunKeepsInv(s: State, steps: seq<Step>, s': State)
    requires Inv(s) && Run(s, steps, s')
    ensures Inv(s')
    decreases |steps|
  {
    if steps != [] {
      StepKeepsInv(s, steps[0]);
      RunKeepsInv(Apply(s, steps[0]), steps[1..], s');
    }
  }

  lemma {:induction false} RunKeepsSyncs(s: State, steps: seq<Step>, s': State)
    requires Run(s, steps, s')
    ensures |s'.syncs| == |s.syncs|
    decreases |steps|
  {
    if steps != [] {
      RunKeepsSyncs(Apply(s, steps[0]), steps[1..], s');
    }
  }

  /** In every run each live thread is in exactly one of running, ready and one wait list, and a thread that has exited
      in none; so the running thread's wait block, which lives on its stack, is in no list; and a signaled event has no
      waiters. */
  lemma EachThreadIsInOnePlace(s: State, steps: seq<Step>, s': State, t: Tid)
    requires IsStart(s) && Run(s, steps, s')
    ensures Occurs(s'.sched, t) + Waiting(s'.syncs, t) == if t < |s'.live| && s'.live[t] then 1 else 0
    ensures s'.sched.running != MAIN ==> Waiting(s'.syncs, s'.sched.running) == 0
    ensures forall i :: 0 <= i < |s'.syncs| && s'.syncs[i].EventSync? && s'.syncs[i].event.signaled ==>
              s'.syncs[i].event.waiters == []
  {
    StartInv(s);
    RunKeepsInv(s, steps, s');
    RunningIsLive(s');
    assert PlacesOf(s', t) == if t < |s'.live| && s'.live[t] then 1 else 0;
  }

  lemma SwitchToMain(s: Sched)
    requires MAIN !in s.ready
    ensures Switch(s).running == MAIN ==> s.ready == [] && Switch(s).ready == []
  {
    if s.ready != [] {
      assert s.ready[0] in s.ready;
    }
  }

  /** The running user thread gives way, in this step, to main. */
  predicate ReturnsToMain(s: State, step: Step) {
    Enabled(s, step) && s.sched.running != MAIN && Apply(s, step).sched.running == MAIN
  }

  lemma MainResumesAlone(s: State, step: Step)
    requires Inv(s) && ReturnsToMain(s, step)
    ensures Inv(Apply(s, step)) && Apply(s, step).sched == Sched(MAIN, [])
  {
    StepKeepsInv(s, step);
    MainIsNotReady(s);
    SwitchToMain(s.sched);
    SwitchToMain(s.sched.(ready := s.sched.ready + [s.sched.running]));
  }

  /** When a switch goes back to main, every live thread is blocked in a wait list. */
  lemma MainResumesWhenAllAreBlocked(s: State, steps: seq<Step>, s': State, step: Step, t: Tid)
    requires IsStart(s) && Run(s, steps, s') && ReturnsToMain(s', step)
    ensures var end := Apply(s', step);
            Waiting(end.syncs, t) == if t < |end.live| && end.live[t] then 1 else 0
  {
    StartInv(s);
    RunKeepsInv(s, steps, s');
    MainResumesAlone(s', step);
    var end := Apply(s', step);
    assert PlacesOf(end, t) == if t < |end.live| && end.live[t] then 1 else 0;
  }

  predicate NobodyIsLeft(s: State) {
    forall t :: 0 <= t < |s.live| ==> !s.live[t]
  }

  predicate NobodyWaits(s: State) {
    forall i :: 0 <= i < |s.syncs| ==> Waiters(s.syncs[i]) == []
  }

  /** With main running and nobody ready, the threads that are left are those in the wait lists. */
  lemma OnlyWaitersAreLeft(s: State)
    requires Inv(s) && s.sched == Sched(MAIN, [])
    ensures NobodyIsLeft(s) <==> NobodyWaits(s)
  {
    if NobodyWaits(s) {
      forall t: nat | t < |s.live|
        ensures !s.live[t]
      {
        TotalZero(s.syncs, Holds(t));
        assert PlacesOf(s, t) == 0;
      }
    } else {
      var i :| 0 <= i < |s.syncs| && Waiters(s.syncs[i]) != [];
      var t := Waiters(s.syncs[i])[0];
      assert t in Waiters(s.syncs[i]);
      TotalZero(s.syncs, Holds(t));
      assert Holds(t)(s.syncs[i]) > 0;
      assert PlacesOf(s, t) > 0;
    }
  }

  /** `ut_run` returns with no thread left, as the later version of it asserts, exactly when all wait lists are
      empty. */
  lemma NobodyIsLeftExactly(s: State, steps: seq<Step>, s': State, step: Step)
    requires IsStart(s) && Run(s, steps, s') && ReturnsToMain(s', step)
    ensures NobodyIsLeft(Apply(s', step)) <==> NobodyWaits(Apply(s', step))
  {
    StartInv(s);
    RunKeepsInv(s, steps, s');
    MainResumesAlone(s', step);
    OnlyWaitersAreLeft(Apply(s', step));
  }

  /** A thread blocks for ever on the first synchronisation object. */
  lemma ReachLeftover(s: State) returns (steps: seq<Step>, s': State, step: Step)
    requires IsStart(s) && s.syncs != []
    ensures Run(s, steps, s') && ReturnsToMain(s', step) && !NobodyIsLeft(Apply(s', step))
  {
    var first: Step;
    match s.syncs[0] {
      case EventSync(_) => first, step := EventClear(0), EventWait(0);
      case SemSync(sem) => first, step := YieldStep, SemWait(0, sem.units + 1);
    }
    var created := Apply(s, Create);
    var running := Apply(created, UtRun);
    s' := Apply(running, first);
    steps := [Create, UtRun, first];
    assert steps[2..][1..] == [] && Run(running, steps[2..], s');
    assert steps[1..][1..] == steps[2..] && Run(created, steps[1..], s');
    assert Apply(s', step).live[1];
  }

  /** A program can return from `ut_run` with a thread left exactly when it has anything to block on. */
  lemma LeftoverExactly(s: State)
    requires IsStart(s)
    ensures (exists steps, s', step :: Run(s, steps, s') && ReturnsToMain(s', step) && !NobodyIsLeft(Apply(s', step)))
       <==> s.syncs != []
  {
    if s.syncs != [] {
      var steps, s', step := ReachLeftover(s);
      assert Run(s, steps, s') && ReturnsToMain(s', step) && !NobodyIsLeft(Apply(s', step));
      assert exists steps, s', step ::
          Run(s, steps, s') && ReturnsToMain(s', step) && !NobodyIsLeft(Apply(s', step));
    } else {
      forall steps, s', step | Run(s, steps, s') && ReturnsToMain(s', step)
        ensures NobodyIsLeft(Apply(s', step))
      {
        RunKeepsSyncs(s, steps, s');
        NobodyIsLeftExactly(s, steps, s', step);
      }
    }
  }

  // ----- Who waits, and in what order they are served -----

  /** The thread that this step puts to sleep on the i-th event or semaphore. */
  function JoinedBy(s: State, step: Step, i: nat): seq<Tid>
    requires Enabled(s, step)
  {
    match step
    case EventWait(j) => if j == i && !s.syncs[j].event.signaled then [s.sched.running] else []
    case SemWait(j, n) => if j == i && Semaphore.MustBlock(s.syncs[j].sem, n) then [s.sched.running] else []
    case _ => []
  }

  /** The threads that a set or a post of the i-th makes ready, as the ready queue shows. */
  function ReleasedBy(s: State, step: Step, i: nat): seq<Tid>
    requires Enabled(s, step)
  {
    var ready := Apply(s, step).sched.ready;
    if (step.EventSet? || step.SemPost?) && step.i == i && |s.sched.ready| <= |ready| then ready[|s.sched.ready|..]
    else []
  }

  function Joined(s: State, steps: seq<Step>, i: nat): seq<Tid>
    decreases |steps|
  {
    if steps == [] || !Enabled(s, steps[0]) then []
    else JoinedBy(s, steps[0], i) + Joined(Apply(s, steps[0]), steps[1..], i)
  }

  function Released(s: State, steps: seq<Step>, i: nat): seq<Tid>
    decreases |steps|
  {
    if steps == [] || !Enabled(s, steps[0]) then []
    else ReleasedBy(s, steps[0], i) + Released(Apply(s, steps[0]), steps[1..], i)
  }

  lemma EventStepServes(s: State, step: Step, i: nat)
    requires Enabled(s, step) && i < |s.syncs| && (step.EventWait? || step.EventSet? || step.EventClear?)
    ensures Waiters(s.syncs[i]) + JoinedBy(s, step, i) == ReleasedBy(s, step, i) + Waiters(Apply(s, step).syncs[i])
  {
  }

  lemma SemStepServes(s: State, step: Step, i: nat)
    requires Enabled(s, step) && i < |s.syncs| && (step.SemWait? || step.SemPost?)
    ensures Waiters(s.syncs[i]) + JoinedBy(s, step, i) == ReleasedBy(s, step, i) + Waiters(Apply(s, step).syncs[i])
  {
    var sem := s.syncs[step.i].sem;
    match step
    case SemWait(_, n) => ThreadsConcat(sem.waiters, [Semaphore.Waiter(s.sched.running, n)]);
    case SemPost(_, n) =>
      Semaphore.PostLeavesHeadBlocked(sem, n);
      ThreadsConcat(Semaphore.Woken(sem, n), Semaphore.AfterPost(sem, n).waiters);
    case _ =>
  }

  lemma StepServes(s: State, step: Step, i: nat)
    requires Enabled(s, step) && i < |s.syncs|
    ensures |Apply(s, step).syncs| == |s.syncs|
    ensures Waiters(s.syncs[i]) + JoinedBy(s, step, i) == ReleasedBy(s, step, i) + Waiters(Apply(s, step).syncs[i])
  {
    if step.EventWait? || step.EventSet? || step.EventClear? {
      EventStepServes(s, step, i);
    } else if step.SemWait? || step.SemPost? {
      SemStepServes(s, step, i);
    }
  }

  lemma Rejoin(a: seq<Tid>, b: seq<Tid>, c: seq<Tid>)
    ensures a + b + c == a + (b + c)
  {
  }

  /** In every run the threads that an event or a semaphore has made ready, then those still waiting, are those that
      have waited, in the order in which they came. */
  lemma {:induction false} ServedInOrder(s: State, steps: seq<Step>, s': State, i: nat)
    requires Run(s, steps, s') && i < |s.syncs|
    ensures |s'.syncs| == |s.syncs|
    ensures Waiters(s.syncs[i]) + Joined(s, steps, i) == Released(s, steps, i) + Waiters(s'.syncs[i])
    decreases |steps|
  {
    if steps != [] {
      var step, next := steps[0], Apply(s, steps[0]);
      StepServes(s, step, i);
      ServedInOrder(next, steps[1..], s', i);
      Rejoin(Waiters(s.syncs[i]), JoinedBy(s, step, i), Joined(next, steps[1..], i));
      Rejoin(ReleasedBy(s, step, i), Waiters(next.syncs[i]), Joined(next, steps[1..], i));
      Rejoin(ReleasedBy(s, step, i), Released(next, steps[1..], i), Waiters(s'.syncs[i]));
    }
  }

  /** Whether the last set or clear of the i-th event, if there has been any, is a set. */
  function Signalled(initial: bool, steps: seq<Step>, i: nat): bool
    decreases |steps|
  {
    if steps == [] then initial
    else
      Signalled(if steps[0] == EventSet(i) then true else if steps[0] == EventClear(i) then false else initial,
                steps[1..], i)
  }

  lemma {:induction false} EventRemembers(s: State, steps: seq<Step>, s': State, i: nat)
    requires Run(s, steps, s') && i < |s.syncs| && s.syncs[i].EventSync?
    ensures |s'.syncs| == |s.syncs| && s'.syncs[i].EventSync?
    ensures s'.syncs[i].event.signaled == Signalled(s.syncs[i].event.signaled, steps, i)
    decreases |steps|
  {
    if steps != [] {
      EventRemembers(Apply(s, steps[0]), steps[1..], s', i);
    }
  }

  /** A wait changes nothing exactly when the event has been set, or created so, and not cleared since. */
  lemma WaitPassesExactly(s: State, steps: seq<Step>, s': State, i: nat)
    requires Run(s, steps, s') && i < |s.syncs| && s.syncs[i].EventSync? && Enabled(s', EventWait(i))
    ensures Apply(s', EventWait(i)) == s' <==> Signalled(s.syncs[i].event.signaled, steps, i)
  {
    EventRemembers(s, steps, s', i);
    var e, after := s'.syncs[i].event, Apply(s', EventWait(i));
    if e.signaled {
      assert after.syncs == s'.syncs;
    } else {
      assert after.syncs[i].event.waiters != e.waiters;
    }
  }

  // ----- The scheduler under the runtime -----

  function Enters(threads: seq<Tid>): seq<Op> {
    Map(threads, t => Enter(t))
  }

  /** What a step asks of the scheduler. */
  function Requests(s: State, step: Step): seq<Op>
    requires Enabled(s, step)
  {
    match step
    case Create => [Enter(|s.live|)]
    case UtRun => [Leave]
    case YieldStep => [GiveWay]
    case Exit => [Leave]
    case EventWait(i) => if s.syncs[i].event.signaled then [] else [Leave]
    case EventSet(i) => Enters(s.syncs[i].event.waiters)
    case EventClear(_) => []
    case SemWait(i, n) => if Semaphore.MustBlock(s.syncs[i].sem, n) then [Leave] else []
    case SemPost(i, n) => Enters(Semaphore.Threads(Semaphore.Woken(s.syncs[i].sem, n)))
  }

  function AllRequests(s: State, steps: seq<Step>): seq<Op>
    decreases |steps|
  {
    if steps == [] || !Enabled(s, steps[0]) then []
    else Requests(s, steps[0]) + AllRequests(Apply(s, steps[0]), steps[1..])
  }

  lemma {:induction false} EntersActivate(s: Sched, threads: seq<Tid>)
    ensures Scheduler.After(s, Enters(threads)) == ActivateAll(s, threads)
    decreases |threads|
  {
    if threads != [] {
      EntersActivate(Activate(s, threads[0]), threads[1..]);
      assert Enters(threads)[1..] == Enters(threads[1..]);
      assert s.ready + threads == s.ready + [threads[0]] + threads[1..];
    } else {
      assert s.ready + threads == s.ready;
    }
  }

  lemma OneRequest(s: Sched, op: Op)
    ensures Scheduler.After(s, [op]) == Scheduler.Apply(s, op)
  {
    assert [op][1..] == [];
  }

  lemma StepAsksScheduler(s: State, step: Step)
    requires Enabled(s, step)
    ensures Apply(s, step).sched == Scheduler.After(s.sched, Requests(s, step))
  {
    match step
    case EventSet(i) => EntersActivate(s.sched, s.syncs[i].event.waiters);
    case SemPost(i, n) => EntersActivate(s.sched, Semaphore.Threads(Semaphore.Woken(s.syncs[i].sem, n)));
    case Create => OneRequest(s.sched, Enter(|s.live|));
    case YieldStep => OneRequest(s.sched, GiveWay);
    case _ => OneRequest(s.sched, Leave);
  }

  /** In every run the scheduler does what the steps ask of it. */
  lemma {:induction false} SchedulerObeys(s: State, steps: seq<Step>, s': State)
    requires Run(s, steps, s')
    ensures s'.sched == Scheduler.After(s.sched, AllRequests(s, steps))
    decreases |steps|
  {
    if steps != [] {
      StepAsksScheduler(s, steps[0]);
      SchedulerObeys(Apply(s, steps[0]), steps[1..], s');
      AfterJoins(s.sched, Requests(s, steps[0]), AllRequests(Apply(s, steps[0]), steps[1..]));
    }
  }

  /** So with events and semaphores too a ready thread at position `k` runs after exactly `k + 1` dispatches. */
  lemma ReadyThreadsRunInTurn(s: State, steps: seq<Step>, s': State, k: nat)
    requires Run(s, steps, s') && k < |s.sched.ready| && k < |Dispatched(s.sched, AllRequests(s, steps))|
    ensures s'.sched == Scheduler.After(s.sched, AllRequests(s, steps))
    ensures Dispatched(s.sched, AllRequests(s, steps))[k] == s.sched.ready[k]
  {
    SchedulerObeys(s, steps, s');
    RunsInTurn(s.sched, AllRequests(s, steps), k);
  }

  predicate HasExited(s: State, steps: seq<Step>, t: Tid)
    decreases |steps|
  {
    && steps != [] && Enabled(s, steps[0])
    && ((steps[0].Exit? && s.sched.running == t) || HasExited(Apply(s, steps[0]), steps[1..], t))
  }

  function Creations(steps: seq<Step>): nat {
    if steps == [] then 0 else (if steps[0].Create? then 1 else 0) + Creations(steps[1..])
  }

  /** In every run a thread lives from its creation to its exit. */
  lemma {:induction false} LivesUntilExit(s: State, steps: seq<Step>, s': State, t: Tid)
    requires Run(s, steps, s')
    ensures |s'.live| == |s.live| + Creations(steps)
    ensures t < |s'.live| && (t < |s.live| ==> s.live[t]) ==> (s'.live[t] <==> !HasExited(s, steps, t))
    decreases |steps|
  {
    if steps != [] {
      LivesUntilExit(Apply(s, steps[0]), steps[1..], s', t);
      if steps[0].Exit? && s.sched.running == t {
        DeadForGood(Apply(s, steps[0]), steps[1..], s', t);
      }
    }
  }

  lemma {:induction false} DeadForGood(s: State, steps: seq<Step>, s': State, t: Tid)
    requires Run(s, steps, s') && t < |s.live| && !s.live[t]
    ensures t < |s'.live| && !s'.live[t]
    decreases |steps|
  {
    if steps != [] {
      DeadForGood(Apply(s, steps[0]), steps[1..], s', t);
    }
  }
}
