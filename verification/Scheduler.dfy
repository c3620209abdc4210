/** The cooperative scheduler of the user-level threads: one running thread, a FIFO of ready ones, and the main
    thread, which is switched to when nobody is ready. */
module Scheduler {
  import opened Threads

  type Tid = nat

  const MAIN: Tid := 0

  /** `running_thread` and `ready_queue`. */
  datatype Sched = Sched(running: Tid, ready: seq<Tid>)

  /** `schedule`: the running thread gives way and is not queued. */
  function Switch(s: Sched): Sched {
    if s.ready == [] then Sched(MAIN, []) else Sched(s.ready[0], s.ready[1..])
  }

  function Yield(s: Sched): Sched {
    if s.ready == [] then s else Switch(s.(ready := s.ready + [s.running]))
  }

  function Activate(s: Sched, t: Tid): Sched {
    s.(ready := s.ready + [t])
  }

  /** The module's global variables and its operations. A method that switches describes the state up to the point
      where the next thread takes over. */
  class SchedulerObject {
    var running: Tid
    var ready: seq<Tid>

    ghost function View(): Sched
      reads this
    {
      Sched(running, ready)
    }

    constructor ()
      ensures View() == Sched(MAIN, [])
    {
      running, ready := MAIN, [];
    }

    method NextThread() returns (next: Tid)
      modifies this`ready
      ensures next == Switch(old(View())).running && ready == Switch(old(View())).ready
    {
      if ready == [] {
        next := MAIN;
      } else {
        next := ready[0];
        ready := ready[1..];
      }
    }

    method Schedule()
      modifies this
      ensures View() == Switch(old(View()))
    {
      var next := NextThread();
      running := next;
    }

    method UtYield()
      modifies this
      ensures View() == Yield(old(View()))
    {
      if ready != [] {
        ready := ready + [running];
        Schedule();
      }
    }

    method UtActivate(t: Tid)
      modifies this
      ensures View() == Activate(old(View()), t)
    {
      ready := ready + [t];
    }

    method UtRun()
      modifies this
      ensures View() == Switch(old(View()))
    {
      running := MAIN;
      Schedule();
    }
  }

  // ----- Fairness -----

  /** What can happen to the two variables. `Leave` covers `ut_exit` and `ut_deactivate`, `Enter` covers
      `ut_create` and `ut_activate`. */
  datatype Op = Enter(t: Tid) | GiveWay | Leave

  function Apply(s: Sched, op: Op): Sched {
    match op
    case Enter(t) => Activate(s, t)
    case GiveWay => Yield(s)
    case Leave => Switch(s)
  }

  function After(s: Sched, ops: seq<Op>): Sched
    decreases |ops|
  {
    if ops == [] then s else After(Apply(s, ops[0]), ops[1..])
  }

  lemma {:induction false} AfterJoins(s: Sched, first: seq<Op>, second: seq<Op>)
    ensures After(s, first + second) == After(After(s, first), second)
    decreases |first|
  {
    if first == [] {
      assert first + second == second;
    } else {
      assert (first + second)[1..] == first[1..] + second;
      AfterJoins(Apply(s, first[0]), first[1..], second);
    }
  }

  /** The threads switched to, in order; a yield with nobody ready does not switch. */
  function Dispatched(s: Sched, ops: seq<Op>): seq<Tid>
    decreases |ops|
  {
    if ops == [] then []
    else
      (if ops[0].Leave? || (ops[0].GiveWay? && s.ready != []) then [Apply(s, ops[0]).running] else [])
        + Dispatched(Apply(s, ops[0]), ops[1..])
  }

  /** A thread at position `k` of the ready queue is the one that runs after exactly `k + 1` dispatches, whatever the
      running threads create, yield to, wake or leave behind. */
  lemma {:induction false} RunsInTurn(s: Sched, ops: seq<Op>, k: nat)
    requires k < |s.ready| && k < |Dispatched(s, ops)|
    ensures Dispatched(s, ops)[k] == s.ready[k]
    decreases |ops|
  {
    var next := Apply(s, ops[0]);
    var rest := Dispatched(next, ops[1..]);
    match ops[0]
    case Enter(_) =>
      assert Dispatched(s, ops) == rest;
      RunsInTurn(next, ops[1..], k);
    case _ =>
      assert Dispatched(s, ops) == [next.running] + rest;
      if k > 0 {
        assert next.ready[k - 1] == s.ready[k];
        RunsInTurn(next, ops[1..], k - 1);
      }
  }

  // ----- Where threads are -----

  /** `running`, unless it is main, and the ready queue. */
  function Places(s: Sched): seq<Tid> {
    (if s.running == MAIN then [] else [s.running]) + s.ready
  }

  /** How often the scheduler holds thread `t`. */
  function Occurs(s: Sched, t: Tid): nat {
    multiset(Places(s))[t]
  }

  lemma ReadySplits(ready: seq<Tid>, t: Tid)
    requires ready != []
    ensures multiset(ready)[t] == multiset(ready[1..])[t] + if ready[0] == t then 1 else 0
  {
    assert ready == [ready[0]] + ready[1..];
  }

  /** Switching takes the running thread, and no other, out of the scheduler. */
  lemma SwitchOccurs(s: Sched, t: Tid)
    requires s.running != MAIN && MAIN !in s.ready
    ensures Occurs(Switch(s), t) == Occurs(s, t) - if t == s.running then 1 else 0
  {
    assert Places(s) == [s.running] + s.ready;
    if s.ready != [] {
      ReadySplits(s.ready, t);
      assert s.ready[0] in s.ready;
      assert Places(Switch(s)) == [s.ready[0]] + s.ready[1..];
    }
  }

  lemma YieldOccurs(s: Sched, t: Tid)
    requires s.running != MAIN && MAIN !in s.ready
    ensures Occurs(Yield(s), t) == Occurs(s, t)
  {
    if s.ready != [] {
      var queued := s.(ready := s.ready + [s.running]);
      SwitchOccurs(queued, t);
      assert Places(queued) == Places(s) + [s.running];
    }
  }

  lemma ActivateOccurs(s: Sched, u: Tid, t: Tid)
    ensures Occurs(Activate(s, u), t) == Occurs(s, t) + if t == u then 1 else 0
  {
    assert Places(Activate(s, u)) == Places(s) + [u];
  }

  // ----- Programs -----

  /** What a thread does: yield or create another thread finitely often, then return. Code between the scheduler
      calls has no effect here. */
  datatype Script = Return | ThenYield(rest: Script) | ThenCreate(child: Script, rest: Script)

  /** A thread that has exited stays in the table as `Gone`, so that thread numbers are not used again. */
  datatype Cell = Gone | Live(script: Script)

  datatype Program = Program(sched: Sched, table: seq<Cell>)

  /** The running thread carries out its next action. */
  function Step(p: Program): Program
    requires p.sched.running < |p.table| && p.table[p.sched.running].Live?
  {
    var t := p.sched.running;
    match p.table[t].script
    case Return => Program(Switch(p.sched), p.table[t := Gone])
    case ThenYield(rest) => Program(Yield(p.sched), p.table[t := Live(rest)])
    case ThenCreate(child, rest) =>
      Program(Activate(p.sched, |p.table|), p.table[t := Live(rest)] + [Live(child)])
  }

  function LiveAt(table: seq<Cell>, t: Tid): nat {
    if t < |table| && table[t].Live? then 1 else 0
  }

  /** Every live user thread is running or ready, exactly once; nobody else is. */
  ghost predicate Inv(p: Program) {
    && |p.table| > 0 && p.table[MAIN] == Gone
    && (p.sched.running == MAIN ==> p.sched.ready == [])
    && (forall t: Tid :: Occurs(p.sched, t) == LiveAt(p.table, t))
  }

  lemma RunningIsLive(p: Program)
    requires Inv(p) && p.sched.running != MAIN
    ensures p.sched.running < |p.table| && p.table[p.sched.running].Live?
    ensures p.sched.running !in p.sched.ready
  {
    RunningOccurs(p.sched);
  }

  lemma LiveAfter(p: Program, u: Tid)
    requires p.sched.running < |p.table| && p.table[p.sched.running].Live?
    ensures LiveAt(Step(p).table, u) == LiveAt(p.table, u)
              + (if p.table[p.sched.running].script.ThenCreate? && u == |p.table| then 1 else 0)
              - (if p.table[p.sched.running].script.Return? && u == p.sched.running then 1 else 0)
  {
  }

  lemma StepOccurs(p: Program, u: Tid)
    requires Inv(p) && p.sched.running != MAIN
    requires p.sched.running < |p.table| && p.table[p.sched.running].Live?
    ensures Occurs(Step(p).sched, u) == LiveAt(Step(p).table, u)
  {
    ReadyIsLive(p);
    LiveAfter(p, u);
    match p.table[p.sched.running].script
    case Return => SwitchOccurs(p.sched, u);
    case ThenYield(_) => YieldOccurs(p.sched, u);
    case ThenCreate(_, _) => ActivateOccurs(p.sched, |p.table|, u);
  }

  lemma StepKeepsInv(p: Program)
    requires Inv(p) && p.sched.running != MAIN
    ensures p.sched.running < |p.table| && p.table[p.sched.running].Live?
    ensures Inv(Step(p))
  {
    RunningIsLive(p);
    ReadyIsLive(p);
    forall u: Tid
      ensures Occurs(Step(p).sched, u) == LiveAt(Step(p).table, u)
    {
      StepOccurs(p, u);
    }
    if Step(p).sched.ready != [] && p.sched.ready != [] {
      assert p.sched.ready[0] in p.sched.ready;
    }
  }

  /** The thread that exits is not the one switched to, and a thread that has exited never comes back. */
  lemma ExitIsForGood(p: Program, t: Tid)
    requires Inv(p) && p.sched.running != MAIN && t < |p.table|
    ensures p.sched.running < |p.table| && p.table[p.sched.running].Live?
    ensures p.table[p.sched.running].script.Return? ==> Step(p).sched.running != p.sched.running
    ensures p.table[t] == Gone ==> Step(p).table[t] == Gone && (Step(p).sched.running == t ==> t == MAIN)
  {
    RunningIsLive(p);
    StepKeepsInv(p);
    assert Occurs(Step(p).sched, t) == LiveAt(Step(p).table, t);
    if Step(p).sched.running != MAIN {
      RunningOccurs(Step(p).sched);
    }
  }

  lemma RunningOccurs(s: Sched)
    requires s.running != MAIN
    ensures Occurs(s, s.running) > 0
    ensures Occurs(s, s.running) == 1 + multiset(s.ready)[s.running]
  {
  }

  lemma ReadyIsLive(p: Program)
    requires Inv(p)
    ensures MAIN !in p.sched.ready
    ensures p.sched.running != MAIN ==> p.sched.running !in p.sched.ready
  {
    assert Occurs(p.sched, MAIN) == 0;
    if p.sched.running != MAIN {
      RunningOccurs(p.sched);
    }
  }

  function Size(script: Script): nat {
    match script
    case Return => 1
    case ThenYield(rest) => 1 + Size(rest)
    case ThenCreate(child, rest) => 1 + Size(child) + Size(rest)
  }

  function CellWork(c: Cell): int {
    match c case Gone => 0 case Live(script) => Size(script)
  }

  /** The actions still to come of all live threads. */
  function Work(table: seq<Cell>): nat {
    NoWorkMeansNobody(table);
    Total(table, CellWork)
  }

  lemma NoWorkMeansNobody(table: seq<Cell>)
    ensures 0 <= Total(table, CellWork)
    ensures Total(table, CellWork) == 0 <==> forall t :: 0 <= t < |table| ==> table[t] == Gone
  {
    TotalZero(table, CellWork);
    assert forall t :: 0 <= t < |table| ==> (CellWork(table[t]) == 0 <==> table[t] == Gone);
  }

  lemma StepWorks(p: Program)
    requires Inv(p) && p.sched.running != MAIN
    ensures p.sched.running < |p.table| && p.table[p.sched.running].Live?
    ensures Work(Step(p).table) == Work(p.table) - 1
  {
    StepKeepsInv(p);
    var t := p.sched.running;
    match p.table[t].script
    case Return => TotalUpdate(p.table, t, Gone, CellWork);
    case ThenYield(rest) => TotalUpdate(p.table, t, Live(rest), CellWork);
    case ThenCreate(child, rest) =>
      TotalUpdate(p.table, t, Live(rest), CellWork);
      TotalAppend(p.table[t := Live(rest)], Live(child), CellWork);
  }

  predicate UserRuns(p: Program) {
    p.sched.running != MAIN && p.sched.running < |p.table| && p.table[p.sched.running].Live?
  }

  /** `q` follows from `p` by `n` steps of user threads. */
  predicate Reaches(p: Program, n: nat, q: Program)
    decreases n
  {
    if n == 0 then p == q else UserRuns(p) && Reaches(Step(p), n - 1, q)
  }

  /** Main runs exactly when no user thread is live. */
  lemma MainRunsWhenNobodyIsLive(p: Program)
    requires Inv(p)
    ensures p.sched.running == MAIN <==> Work(p.table) == 0
  {
    NoWorkMeansNobody(p.table);
    if p.sched.running != MAIN {
      StepKeepsInv(p);
    } else {
      forall t: nat | t < |p.table|
        ensures p.table[t] == Gone
      {
        assert Occurs(p.sched, t) == 0;
      }
    }
  }

  /** A program of finite scripts gives control back to main after exactly as many steps as the scripts are long,
      counting those of threads created on the way, and not before; by then every thread has exited. */
  lemma {:induction false} ProgramEnds(p: Program) returns (q: Program)
    requires Inv(p)
    ensures Reaches(p, Work(p.table), q) && q.sched == Sched(MAIN, [])
    ensures forall t :: 0 <= t < |q.table| ==> q.table[t] == Gone
    decreases Work(p.table)
  {
    MainRunsWhenNobodyIsLive(p);
    if p.sched.running == MAIN {
      q := p;
      NoWorkMeansNobody(p.table);
    } else {
      StepWorks(p);
      StepKeepsInv(p);
      q := ProgramEnds(Step(p));
    }
  }

  /** By then each thread has performed its whole program, in order. */
  lemma EveryProgramIsPerformed(p: Program, t: Tid)
    requires Inv(p) && t < |p.table|
    ensures Performed(p, Work(p.table), t) == ActionsLeft(p.table, t)
  {
    var q := ProgramEnds(p);
    ThreadsRunTheirPrograms(p, Work(p.table), q, t);
    TableGrows(p, Work(p.table), q);
  }

  /** `ut_run` on threads just created. */
  lemma UtRunEnds(scripts: seq<Script>, ready: seq<Tid>) returns (end: Program)
    requires |ready| == |scripts| && forall i :: 0 <= i < |ready| ==> ready[i] == i + 1
    ensures var table := [Gone] + seq(|scripts|, i requires 0 <= i < |scripts| => Live(scripts[i]));
            Reaches(Program(Switch(Sched(MAIN, ready)), table), Work(table), end)
    ensures end.sched == Sched(MAIN, []) && forall t :: 0 <= t < |end.table| ==> end.table[t] == Gone
    ensures var table := [Gone] + seq(|scripts|, i requires 0 <= i < |scripts| => Live(scripts[i]));
            forall i :: 0 <= i < |scripts| ==>
              Performed(Program(Switch(Sched(MAIN, ready)), table), Work(table), i + 1) == Actions(scripts[i])
  {
    var table := [Gone] + seq(|scripts|, i requires 0 <= i < |scripts| => Live(scripts[i]));
    var p := Program(Switch(Sched(MAIN, ready)), table);
    Increasing(ready, 1);
    if ready != [] {
      assert Places(p.sched) == ready;
    }
    assert Inv(p);
    end := ProgramEnds(p);
    forall i: nat | i < |scripts|
      ensures Performed(p, Work(table), i + 1) == Actions(scripts[i])
    {
      EveryProgramIsPerformed(p, i + 1);
    }
  }

  lemma {:induction false} Increasing(s: seq<Tid>, from: nat)
    requires forall i :: 0 <= i < |s| ==> s[i] == i + from
    ensures forall t: Tid :: multiset(s)[t] == if from <= t < from + |s| then 1 else 0
  {
    if s != [] {
      Increasing(s[1..], from + 1);
      assert s == [s[0]] + s[1..];
    }
  }

  // ----- Every thread runs its own program, in turn -----

  datatype Action = Yields | Creates(child: Script) | Returns

  /** The actions of a script, in order. */
  function Actions(script: Script): seq<Action> {
    match script
    case Return => [Returns]
    case ThenYield(rest) => [Yields] + Actions(rest)
    case ThenCreate(child, rest) => [Creates(child)] + Actions(rest)
  }

  function ActionsLeft(table: seq<Cell>, t: Tid): seq<Action> {
    if t < |table| && table[t].Live? then Actions(table[t].script) else []
  }

  /** What the running thread does next. */
  function NextAction(p: Program): Action
    requires UserRuns(p)
  {
    match p.table[p.sched.running].script
    case Return => Returns
    case ThenYield(_) => Yields
    case ThenCreate(child, _) => Creates(child)
  }

  /** The actions that thread `t` performs in the next `n` steps. */
  function Performed(p: Program, n: nat, t: Tid): seq<Action>
    decreases n
  {
    if n == 0 || !UserRuns(p) then []
    else (if p.sched.running == t then [NextAction(p)] else []) + Performed(Step(p), n - 1, t)
  }

  /** The programs named by those who create threads in the next `n` steps. */
  function Named(p: Program, n: nat): seq<Script>
    decreases n
  {
    if n == 0 || !UserRuns(p) then []
    else (if NextAction(p).Creates? then [NextAction(p).child] else []) + Named(Step(p), n - 1)
  }

  lemma StepPerforms(p: Program, t: Tid)
    requires UserRuns(p) && t < |p.table|
    ensures t < |Step(p).table|
    ensures ActionsLeft(p.table, t)
         == (if p.sched.running == t then [NextAction(p)] else []) + ActionsLeft(Step(p).table, t)
  {
  }

  lemma JoinIsAssociative(a: seq<Action>, b: seq<Action>, c: seq<Action>)
    ensures a + b + c == a + (b + c)
  {
  }

  /** In every run what a thread has performed, then what is left of its program, is its program. */
  lemma {:induction false} ThreadsRunTheirPrograms(p: Program, n: nat, q: Program, t: Tid)
    requires Reaches(p, n, q) && t < |p.table|
    ensures Performed(p, n, t) + ActionsLeft(q.table, t) == ActionsLeft(p.table, t)
    decreases n
  {
    if n > 0 {
      StepPerforms(p, t);
      ThreadsRunTheirPrograms(Step(p), n - 1, q, t);
      JoinIsAssociative(if p.sched.running == t then [NextAction(p)] else [], Performed(Step(p), n - 1, t),
                        ActionsLeft(q.table, t));
    }
  }

  lemma StepNames(p: Program)
    requires UserRuns(p)
    ensures if NextAction(p).Creates?
            then |Step(p).table| == |p.table| + 1 && Step(p).table[|p.table|] == Live(NextAction(p).child)
            else |Step(p).table| == |p.table|
  {
  }

  lemma OthersPerformLater(p: Program, n: nat, t: Tid)
    requires UserRuns(p) && n > 0 && t != p.sched.running
    ensures Performed(p, n, t) == Performed(Step(p), n - 1, t)
  {
  }

  lemma NamedFirst(p: Program, n: nat)
    requires UserRuns(p) && n > 0
    ensures Named(p, n) == (if NextAction(p).Creates? then [NextAction(p).child] else []) + Named(Step(p), n - 1)
  {
  }

  lemma FirstBorn(p: Program, n: nat, q: Program)
    requires UserRuns(p) && n > 0 && Reaches(Step(p), n - 1, q) && NextAction(p).Creates?
    ensures Performed(Step(p), n - 1, |p.table|) + ActionsLeft(q.table, |p.table|) == Actions(NextAction(p).child)
  {
    StepNames(p);
    ThreadsRunTheirPrograms(Step(p), n - 1, q, |p.table|);
  }

  /** What thread `t` performs, then what is left of its program, is the program `child`. */
  ghost predicate RunsNamed(p: Program, n: nat, q: Program, t: Tid, child: Script) {
    Performed(p, n, t) + ActionsLeft(q.table, t) == Actions(child)
  }

  /** A thread created on the way runs the program that its creator has named. */
  lemma {:induction false} ChildrenRunWhatIsNamed(p: Program, n: nat, q: Program, j: nat)
    requires Reaches(p, n, q) && j < |Named(p, n)|
    ensures RunsNamed(p, n, q, |p.table| + j, Named(p, n)[j])
    decreases n
  {
    var next, t := Step(p), |p.table| + j;
    StepNames(p);
    NamedFirst(p, n);
    OthersPerformLater(p, n, t);
    if !NextAction(p).Creates? {
      ChildrenRunWhatIsNamed(next, n - 1, q, j);
    } else if j == 0 {
      FirstBorn(p, n, q);
    } else {
      ChildrenRunWhatIsNamed(next, n - 1, q, j - 1);
    }
  }

  /** As many threads are created as programs are named. */
  lemma {:induction false} TableGrows(p: Program, n: nat, q: Program)
    requires Reaches(p, n, q)
    ensures |q.table| == |p.table| + |Named(p, n)|
    decreases n
  {
    if n > 0 {
      StepNames(p);
      TableGrows(Step(p), n - 1, q);
    }
  }

  /** What the next `n` actions ask of the scheduler. */
  function Requests(p: Program, n: nat): seq<Op>
    decreases n
  {
    if n == 0 || !UserRuns(p) then []
    else [Request(NextAction(p), |p.table|)] + Requests(Step(p), n - 1)
  }

  function Request(action: Action, newcomer: Tid): Op {
    match action
    case Yields => GiveWay
    case Creates(_) => Enter(newcomer)
    case Returns => Leave
  }

  lemma StepAsksScheduler(p: Program)
    requires UserRuns(p)
    ensures Step(p).sched == Apply(p.sched, Request(NextAction(p), |p.table|))
  {
  }

  lemma {:induction false} SchedulerObeysRequests(p: Program, n: nat, q: Program)
    requires Reaches(p, n, q)
    ensures q.sched == After(p.sched, Requests(p, n))
    decreases n
  {
    if n > 0 {
      StepAsksScheduler(p);
      SchedulerObeysRequests(Step(p), n - 1, q);
      assert Requests(p, n)[1..] == Requests(Step(p), n - 1);
    }
  }

  /** In every run of a program the scheduler does what the actions ask, and the k-th ready thread is the k-th to be
      dispatched. */
  lemma ProgramsRunInTurn(p: Program, n: nat, q: Program, k: nat)
    requires Reaches(p, n, q)
    ensures q.sched == After(p.sched, Requests(p, n))
    ensures k < |p.sched.ready| && k < |Dispatched(p.sched, Requests(p, n))| ==>
              Dispatched(p.sched, Requests(p, n))[k] == p.sched.ready[k]
  {
    SchedulerObeysRequests(p, n, q);
    if k < |p.sched.ready| && k < |Dispatched(p.sched, Requests(p, n))| {
      RunsInTurn(p.sched, Requests(p, n), k);
    }
  }
}
