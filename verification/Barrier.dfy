/** The cyclic barrier: `barrier_await` split at its two critical sections, any number of threads, wake-ups that
    may be spurious, and an unbounded number of rounds. */
module Barrier {
  import opened Threads

  /** The fields of barrier_t that the mutex protects. */
  datatype Shared = Shared(parties: int, arrived: int, round: int)

  /** The first critical section, up to the unlock or the first wait. `modulus` is the number of values the round
      counter can take: 0 for a counter that never wraps, 2 for a sense-reversing barrier, and in between what a
      machine word allows. */
  function ArriveSpec(sh: Shared, modulus: nat): Shared {
    if sh.arrived + 1 == sh.parties
    then sh.(arrived := 0, round := NextRound(sh.round, modulus))
    else sh.(arrived := sh.arrived + 1)
  }

  function NextRound(round: int, modulus: nat): int {
    if modulus == 0 then round + 1 else (round + 1) % modulus
  }

  /** A thread that saved round `r` has to go on waiting. */
  predicate IsClosed(sh: Shared, r: int) {
    sh.round == r
  }

  /** The object itself. `pthread_cond_wait` releases the mutex, so `barrier_await` is a call of `Arrive` followed,
      for a thread that is not the last one, by calls of `StillClosed` with the saved round until it answers no. */
  class BarrierObject {
    var parties: int
    var arrived: int
    var round: int

    ghost function View(): Shared
      reads this
    {
      Shared(parties, arrived, round)
    }

    constructor (parties: int)
      ensures View() == Shared(parties, 0, 0)
    {
      this.parties := parties;
      arrived := 0;
      round := 0;
    }

    /** `index` and `r` are the locals of the source; `last` says that the caller broadcasts and does not wait. */
    method Arrive() returns (index: int, r: int, last: bool)
      modifies this
      ensures View() == ArriveSpec(old(View()), 0)
      ensures index == old(arrived) + 1 && r == old(round)
      ensures last <==> round == r + 1
      ensures last <==> index == parties
    {
      arrived := arrived + 1;
      index := arrived;
      r := round;
      last := index == parties;
      if last {
        arrived := 0;
        round := round + 1;
      }
    }

    /** The loop condition, read under the mutex after a wake-up. */
    method StillClosed(r: int) returns (closed: bool)
      ensures closed <==> IsClosed(View(), r)
    {
      closed := round == r;
    }
  }

  /** Where a thread is between critical sections. `Blocked(r)` is on the condition variable with saved round `r`;
      `Woken(r)` has been woken, by a broadcast or spuriously, and has yet to look at the round. */
  datatype Pc = Idle | Blocked(r: int) | Woken(r: int)

  datatype Event = Arrived(t: nat, r: int) | Returned(t: nat, r: int, serial: bool)

  datatype State = State(sh: Shared, pcs: seq<Pc>, log: seq<Event>)

  datatype Step = Arrive(t: nat) | SpuriousWake(t: nat) | Recheck(t: nat)

  predicate IsStart(s: State) {
    && s.sh == Shared(s.sh.parties, 0, 0)
    && (forall t :: 0 <= t < |s.pcs| ==> s.pcs[t] == Idle)
    && s.log == []
  }

  predicate Enabled(s: State, step: Step) {
    && step.t < |s.pcs|
    && match step
       case Arrive(t) => s.pcs[t].Idle?
       case SpuriousWake(t) => s.pcs[t].Blocked?
       case Recheck(t) => s.pcs[t].Woken?
  }

  /** What a broadcast does to one thread. */
  function WakeUp(pc: Pc): Pc {
    if pc.Blocked? then Woken(pc.r) else pc
  }

  function Apply(s: State, step: Step, modulus: nat): State
    requires Enabled(s, step)
  {
    match step
    case Arrive(t) =>
      var r := s.sh.round;
      if s.sh.arrived + 1 == s.sh.parties then
        State(ArriveSpec(s.sh, modulus), Map(s.pcs, WakeUp), s.log + [Arrived(t, r), Returned(t, r, true)])
      else
        State(ArriveSpec(s.sh, modulus), s.pcs[t := Blocked(r)], s.log + [Arrived(t, r)])
    case SpuriousWake(t) => s.(pcs := s.pcs[t := Woken(s.pcs[t].r)])
    case Recheck(t) =>
      var r := s.pcs[t].r;
      if IsClosed(s.sh, r) then s.(pcs := s.pcs[t := Blocked(r)])
      else s.(pcs := s.pcs[t := Idle], log := s.log + [Returned(t, r, false)])
  }

  /** `steps` is a run from `s` to `s'` of the barrier whose counter has the given modulus. */
  ghost predicate Run(s: State, steps: seq<Step>, s': State, modulus: nat)
    decreases |steps|
  {
    if steps == [] then s == s'
    else Enabled(s, steps[0]) && Run(Apply(s, steps[0], modulus), steps[1..], s', modulus)
  }

  // ----- What is counted -----

  function Unreleased(r: int): Pc -> bool {
    (pc: Pc) => pc == Blocked(r) || pc == Woken(r)
  }

  function ArrivalIn(r: int): Event -> bool {
    (e: Event) => e.Arrived? && e.r == r
  }

  function ArrivalOf(t: nat, r: int): Event -> bool {
    (e: Event) => e == Arrived(t, r)
  }

  function SerialIn(r: int): Event -> bool {
    (e: Event) => e.Returned? && e.r == r && e.serial
  }

  function ReturnOf(t: nat): Event -> bool {
    (e: Event) => e.Returned? && e.t == t
  }

  function Arrivals(log: seq<Event>, r: int): nat { Count(log, ArrivalIn(r)) }
  function ArrivalsOf(log: seq<Event>, t: nat, r: int): nat { Count(log, ArrivalOf(t, r)) }
  function Serials(log: seq<Event>, r: int): nat { Count(log, SerialIn(r)) }
  function CompletedRounds(log: seq<Event>, t: nat): nat { Count(log, ReturnOf(t)) }

  /** No caller returns before `parties` arrivals of its own round are on record. */
  predicate ReturnsAreLate(log: seq<Event>, parties: int) {
    forall i :: 0 <= i < |log| && log[i].Returned? ==> Arrivals(log[..i], log[i].r) == parties
  }

  // ----- The invariant -----

  /** The threads: whoever blocks, blocks on the current round, and the unreleased callers of the current round
      are exactly those `arrived` counts. */
  ghost predicate ThreadsInv(sh: Shared, pcs: seq<Pc>) {
    && 1 <= sh.parties && 0 <= sh.arrived < sh.parties && 0 <= sh.round
    && (forall t :: 0 <= t < |pcs| && pcs[t].Blocked? ==> pcs[t].r == sh.round)
    && (forall t :: 0 <= t < |pcs| && pcs[t].Woken? ==> 0 <= pcs[t].r <= sh.round)
    && Count(pcs, Unreleased(sh.round)) == sh.arrived
  }

  /** The history: every completed round had `parties` arrivals and one serial return, and no return is early. */
  ghost predicate RoundsInv(sh: Shared, log: seq<Event>) {
    && (forall r :: Arrivals(log, r) ==
          if 0 <= r < sh.round then sh.parties else if r == sh.round then sh.arrived else 0)
    && (forall r :: Serials(log, r) == if 0 <= r < sh.round then 1 else 0)
    && ReturnsAreLate(log, sh.parties)
  }

  /** No thread arrives twice in one round. */
  ghost predicate DistinctInv(sh: Shared, pcs: seq<Pc>, log: seq<Event>) {
    forall t: nat, r :: t < |pcs| ==>
      if r < sh.round then ArrivalsOf(log, t, r) <= 1
      else ArrivalsOf(log, t, r) == if r == sh.round && Unreleased(r)(pcs[t]) then 1 else 0
  }

  ghost predicate Inv(s: State) {
    ThreadsInv(s.sh, s.pcs) && RoundsInv(s.sh, s.log) && DistinctInv(s.sh, s.pcs, s.log)
  }

  lemma StartInv(s: State)
    requires IsStart(s) && 1 <= s.sh.parties
    ensures Inv(s)
  {
    CountNone(s.pcs, Unreleased(0));
  }

  /** How appending one event changes the counts by round. */
  lemma LogAppend(log: seq<Event>, e: Event)
    ensures forall r :: Arrivals(log + [e], r) == Arrivals(log, r) + if ArrivalIn(r)(e) then 1 else 0
    ensures forall r :: Serials(log + [e], r) == Serials(log, r) + if SerialIn(r)(e) then 1 else 0
  {
    assert (log + [e])[..|log|] == log;
  }

  /** How it changes the counts by thread. */
  lemma LogAppendThreads(log: seq<Event>, e: Event)
    ensures forall t: nat, r ::
              ArrivalsOf(log + [e], t, r) == ArrivalsOf(log, t, r) + if ArrivalOf(t, r)(e) then 1 else 0
    ensures forall t: nat :: CompletedRounds(log + [e], t) == CompletedRounds(log, t) + if ReturnOf(t)(e) then 1 else 0
  {
    assert (log + [e])[..|log|] == log;
  }

  lemma LogAppendLate(log: seq<Event>, e: Event, parties: int)
    requires ReturnsAreLate(log, parties)
    requires e.Returned? ==> Arrivals(log, e.r) == parties
    ensures ReturnsAreLate(log + [e], parties)
  {
    var longer := log + [e];
    forall i | 0 <= i < |longer| && longer[i].Returned?
      ensures Arrivals(longer[..i], longer[i].r) == parties
    {
      assert longer[..i] == log[..i];
      assert log[..|log|] == log;
    }
  }

  lemma StepKeepsThreads(s: State, step: Step)
    requires ThreadsInv(s.sh, s.pcs) && Enabled(s, step)
    ensures ThreadsInv(Apply(s, step, 0).sh, Apply(s, step, 0).pcs)
  {
    var s' := Apply(s, step, 0);
    if step.Arrive? && s.sh.arrived + 1 == s.sh.parties {
      CountNone(s'.pcs, Unreleased(s'.sh.round));
    } else {
      CountUpdate(s.pcs, step.t, s'.pcs[step.t], Unreleased(s.sh.round));
    }
  }

  lemma ReturnKeepsRounds(sh: Shared, log: seq<Event>, t: nat, r: int)
    requires RoundsInv(sh, log) && 0 <= r < sh.round
    ensures RoundsInv(sh, log + [Returned(t, r, false)])
  {
    LogAppend(log, Returned(t, r, false));
    LogAppendLate(log, Returned(t, r, false), sh.parties);
  }

  lemma ArrivalKeepsRounds(sh: Shared, log: seq<Event>, t: nat)
    requires RoundsInv(sh, log) && 0 <= sh.arrived && 0 <= sh.round
    ensures RoundsInv(sh.(arrived := sh.arrived + 1), log + [Arrived(t, sh.round)])
  {
    LogAppend(log, Arrived(t, sh.round));
    LogAppendLate(log, Arrived(t, sh.round), sh.parties);
  }

  lemma SerialReturnKeepsRounds(sh: Shared, log: seq<Event>, t: nat)
    requires RoundsInv(sh, log) && sh.arrived == sh.parties && 0 <= sh.round
    ensures RoundsInv(sh.(arrived := 0, round := sh.round + 1), log + [Returned(t, sh.round, true)])
  {
    LogAppend(log, Returned(t, sh.round, true));
    LogAppendLate(log, Returned(t, sh.round, true), sh.parties);
  }

  lemma StepKeepsRounds(s: State, step: Step)
    requires ThreadsInv(s.sh, s.pcs) && RoundsInv(s.sh, s.log) && Enabled(s, step)
    ensures RoundsInv(Apply(s, step, 0).sh, Apply(s, step, 0).log)
  {
    match step
    case Arrive(t) =>
      ArrivalKeepsRounds(s.sh, s.log, t);
      if s.sh.arrived + 1 == s.sh.parties {
        SerialReturnKeepsRounds(s.sh.(arrived := s.sh.arrived + 1), s.log + [Arrived(t, s.sh.round)], t);
        assert s.log + [Arrived(t, s.sh.round)] + [Returned(t, s.sh.round, true)] == Apply(s, step, 0).log;
      }
    case SpuriousWake(_) =>
    case Recheck(t) =>
      if s.pcs[t].r != s.sh.round {
        ReturnKeepsRounds(s.sh, s.log, t, s.pcs[t].r);
      }
  }

  lemma StepKeepsDistinct(s: State, step: Step)
    requires ThreadsInv(s.sh, s.pcs) && DistinctInv(s.sh, s.pcs, s.log) && Enabled(s, step)
    ensures DistinctInv(Apply(s, step, 0).sh, Apply(s, step, 0).pcs, Apply(s, step, 0).log)
  {
    match step
    case Arrive(t) =>
      var arrival, ret := Arrived(t, s.sh.round), Returned(t, s.sh.round, true);
      LogAppendThreads(s.log, arrival);
      if s.sh.arrived + 1 == s.sh.parties {
        LogAppendThreads(s.log + [arrival], ret);
        assert s.log + [arrival] + [ret] == s.log + [arrival, ret];
      }
    case SpuriousWake(_) =>
    case Recheck(t) =>
      LogAppendThreads(s.log, Returned(t, s.pcs[t].r, false));
  }

  lemma {:induction false} RunKeepsInv(s: State, steps: seq<Step>, s': State)
    requires Inv(s) && Run(s, steps, s', 0)
    ensures Inv(s') && s'.sh.parties == s.sh.parties && |s'.pcs| == |s.pcs|
    decreases |steps|
  {
    if steps != [] {
      StepKeepsThreads(s, steps[0]);
      StepKeepsRounds(s, steps[0]);
      StepKeepsDistinct(s, steps[0]);
      RunKeepsInv(Apply(s, steps[0], 0), steps[1..], s');
    }
  }

  /** Safety of the barrier over every run, for any number of threads. */
  lemma BarrierSafety(s: State, steps: seq<Step>, s': State)
    requires IsStart(s) && 1 <= s.sh.parties && Run(s, steps, s', 0)
    // between critical sections `arrived` counts the unreleased callers of the current round and is below `parties`
    ensures Count(s'.pcs, Unreleased(s'.sh.round)) == s'.sh.arrived < s'.sh.parties
    // every completed round had exactly `parties` arrivals, from different threads, and one serial return
    ensures forall r :: 0 <= r < s'.sh.round ==> Arrivals(s'.log, r) == s.sh.parties && Serials(s'.log, r) == 1
    ensures forall t: nat, r :: t < |s'.pcs| ==> ArrivalsOf(s'.log, t, r) <= 1
    // no caller returned before its round was complete
    ensures forall i :: 0 <= i < |s'.log| && s'.log[i].Returned? ==>
              Arrivals(s'.log[..i], s'.log[i].r) == s.sh.parties
    // nobody is left on the condition variable by a round that is over
    ensures forall t :: 0 <= t < |s'.pcs| && s'.pcs[t].Blocked? ==> s'.pcs[t].r == s'.sh.round
  {
    StartInv(s);
    RunKeepsInv(s, steps, s');
  }

  /** The test after a wake-up lets a caller go exactly when its round has had all its arrivals. */
  lemma RecheckReleasesExactly(s: State, steps: seq<Step>, s': State, t: nat)
    requires IsStart(s) && 1 <= s.sh.parties && Run(s, steps, s', 0)
    requires t < |s'.pcs| && s'.pcs[t].Woken?
    ensures Apply(s', Recheck(t), 0).pcs[t] == Idle <==> Arrivals(s'.log, s'.pcs[t].r) == s.sh.parties
  {
    StartInv(s);
    RunKeepsInv(s, steps, s');
  }

  // ----- When callers can be released at all -----

  /** With too few threads, or a non-positive `parties`, the round never advances. */
  lemma {:induction false} NeverReleased(s: State, steps: seq<Step>, s': State)
    requires s.sh.round == 0 && 0 <= s.sh.arrived && !(1 <= s.sh.parties <= |s.pcs|)
    requires Count(s.pcs, Unreleased(0)) == s.sh.arrived
    requires forall t :: 0 <= t < |s.pcs| && !s.pcs[t].Idle? ==> s.pcs[t].r == 0
    requires Run(s, steps, s', 0)
    ensures s'.sh.round == 0
    decreases |steps|
  {
    if steps != [] {
      var t := steps[0].t;
      var next := Apply(s, steps[0], 0);
      CountUpdate(s.pcs, t, next.pcs[t], Unreleased(0));
      CountEvery(s.pcs, Unreleased(0));
      NeverReleased(next, steps[1..], s');
    }
  }

  function Arrivers(from: nat, to: nat): seq<Step>
    requires from <= to
  {
    seq(to - from, i requires 0 <= i < to - from => Arrive(from + i))
  }

  lemma {:induction false} ArriveInOrder(s: State, k: nat) returns (s': State)
    requires s.sh.round == 0 && s.sh.arrived == k < s.sh.parties <= |s.pcs|
    requires forall t :: k <= t < |s.pcs| ==> s.pcs[t] == Idle
    ensures Run(s, Arrivers(k, s.sh.parties), s', 0) && s'.sh.round == 1
    decreases s.sh.parties - k
  {
    var steps := Arrivers(k, s.sh.parties);
    var next := Apply(s, steps[0], 0);
    if k + 1 == s.sh.parties {
      s' := next;
      assert steps[1..] == [];
    } else {
      s' := ArriveInOrder(next, k + 1);
      assert steps[1..] == Arrivers(k + 1, s.sh.parties);
    }
  }

  /** Some run completes a round exactly when `parties` is positive and there are that many threads. */
  lemma ReleasableExactly(s: State)
    requires IsStart(s)
    ensures (exists steps, s' :: Run(s, steps, s', 0) && s'.sh.round > 0) <==> 1 <= s.sh.parties <= |s.pcs|
  {
    if 1 <= s.sh.parties <= |s.pcs| {
      var s' := ArriveInOrder(s, 0);
      var steps := Arrivers(0, s.sh.parties);
      assert Run(s, steps, s', 0) && s'.sh.round > 0;
      assert exists steps, s' :: Run(s, steps, s', 0) && s'.sh.round > 0;
    } else {
      CountNone(s.pcs, Unreleased(0));
      forall steps, s' | Run(s, steps, s', 0)
        ensures s'.sh.round == 0
      {
        NeverReleased(s, steps, s');
      }
    }
  }

  // ----- As many threads as parties: the counter may wrap -----

  /** With as many threads as parties a waiter lags at most one round, and a thread's completed rounds are the
      current round, or one less while it has yet to notice. */
  ghost predicate LockStep(s: State) {
    && |s.pcs| == s.sh.parties
    && (forall t :: 0 <= t < |s.pcs| ==>
          && (s.pcs[t].Woken? ==> s.sh.round - 1 <= s.pcs[t].r)
          && CompletedRounds(s.log, t) == if s.pcs[t].Idle? then s.sh.round else s.pcs[t].r)
  }

  lemma StepKeepsLockStep(s: State, step: Step)
    requires ThreadsInv(s.sh, s.pcs) && LockStep(s) && Enabled(s, step)
    ensures LockStep(Apply(s, step, 0))
  {
    match step
    case Arrive(t) =>
      var arrival, ret := Arrived(t, s.sh.round), Returned(t, s.sh.round, true);
      LogAppendThreads(s.log, arrival);
      if s.sh.arrived + 1 == s.sh.parties {
        LogAppendThreads(s.log + [arrival], ret);
        assert s.log + [arrival] + [ret] == s.log + [arrival, ret];
        CountAllButOne(s.pcs, t, Unreleased(s.sh.round));
      }
    case SpuriousWake(_) =>
    case Recheck(t) =>
      LogAppendThreads(s.log, Returned(t, s.pcs[t].r, false));
  }

  lemma {:induction false} RunKeepsLockStep(s: State, steps: seq<Step>, s': State)
    requires Inv(s) && LockStep(s) && Run(s, steps, s', 0)
    ensures Inv(s') && LockStep(s')
    decreases |steps|
  {
    if steps != [] {
      StepKeepsLockStep(s, steps[0]);
      RunKeepsInv(s, steps[..1], Apply(s, steps[0], 0));
      RunKeepsLockStep(Apply(s, steps[0], 0), steps[1..], s');
    }
  }

  lemma StartLockStep(s: State)
    requires IsStart(s) && 1 <= s.sh.parties == |s.pcs|
    ensures Inv(s) && LockStep(s)
  {
    StartInv(s);
  }

  /** No thread is ever more than one completed round ahead of another. */
  lemma RoundsStayTogether(s: State, steps: seq<Step>, s': State, t: nat, u: nat)
    requires IsStart(s) && 1 <= s.sh.parties == |s.pcs| && Run(s, steps, s', 0)
    requires t < |s.pcs| && u < |s.pcs|
    ensures CompletedRounds(s'.log, t) <= CompletedRounds(s'.log, u) + 1
  {
    StartLockStep(s);
    RunKeepsLockStep(s, steps, s');
    RunKeepsInv(s, steps, s');
  }

  /** The same state as seen by a barrier whose rounds are counted modulo `m`. */
  function Wrap(s: State, m: nat): State
    requires m > 0
  {
    State(s.sh.(round := s.sh.round % m), Map(s.pcs, WrapPc(m)), Map(s.log, WrapEvent(m)))
  }

  function WrapPc(m: nat): Pc -> Pc
    requires m > 0
  {
    (pc: Pc) => match pc
                case Idle => Idle
                case Blocked(r) => Blocked(r % m)
                case Woken(r) => Woken(r % m)
  }

  function WrapEvent(m: nat): Event -> Event
    requires m > 0
  {
    (e: Event) => match e
                  case Arrived(t, r) => Arrived(t, r % m)
                  case Returned(t, r, serial) => Returned(t, r % m, serial)
  }

  lemma NeighboursDifferModulo(r: int, m: nat)
    requires 2 <= m && 0 <= r
    ensures r % m != (r + 1) % m && (r + 1) % m == (r % m + 1) % m
  {
    var q, x := r / m, r % m;
    if x + 1 < m {
      Remainder(r + 1, m, q, x + 1);
    } else {
      Remainder(r + 1, m, q + 1, 0);
    }
  }

  lemma Remainder(a: int, m: nat, q: int, x: int)
    requires 0 <= x < m && a == m * q + x
    ensures a % m == x
  {
    QuotientUnique(m, a / m, a % m, q, x);
  }

  lemma QuotientUnique(m: nat, d: int, y: int, q: int, x: int)
    requires 0 <= x < m && 0 <= y < m && m * d + y == m * q + x
    ensures x == y
  {
    assert m * (d - q) == m * d - m * q;
    MultipleIsFar(m, d - q);
  }

  lemma MultipleIsFar(m: int, k: int)
    requires m > 0
    ensures k >= 1 ==> m * k >= m
    ensures k <= -1 ==> m * k <= -m
  {
  }

  /** Wrapping after a change to one thread is the same change after wrapping. */
  lemma WrapUpdate(pcs: seq<Pc>, t: nat, pc: Pc, m: nat)
    requires t < |pcs| && m > 0
    ensures Map(pcs[t := pc], WrapPc(m)) == Map(pcs, WrapPc(m))[t := WrapPc(m)(pc)]
  {
  }

  lemma WrapBroadcast(pcs: seq<Pc>, m: nat)
    requires m > 0
    ensures Map(Map(pcs, WakeUp), WrapPc(m)) == Map(Map(pcs, WrapPc(m)), WakeUp)
  {
  }

  lemma WrapAppend(log: seq<Event>, more: seq<Event>, m: nat)
    requires m > 0
    ensures Map(log + more, WrapEvent(m)) == Map(log, WrapEvent(m)) + Map(more, WrapEvent(m))
  {
  }

  lemma WrappedArrive(s: State, t: nat, m: nat)
    requires 0 <= s.sh.round && Enabled(s, Arrive(t)) && 2 <= m
    ensures Enabled(Wrap(s, m), Arrive(t)) && Apply(Wrap(s, m), Arrive(t), m) == Wrap(Apply(s, Arrive(t), 0), m)
  {
    var r := s.sh.round;
    NeighboursDifferModulo(r, m);
    WrapUpdate(s.pcs, t, Blocked(r), m);
    WrapBroadcast(s.pcs, m);
    WrapAppend(s.log, [Arrived(t, r)], m);
    WrapAppend(s.log, [Arrived(t, r), Returned(t, r, true)], m);
    assert Map([Arrived(t, r)], WrapEvent(m)) == [WrapEvent(m)(Arrived(t, r))];
    assert Map([Arrived(t, r), Returned(t, r, true)], WrapEvent(m))
        == [WrapEvent(m)(Arrived(t, r)), WrapEvent(m)(Returned(t, r, true))];
  }

  /** The round that the thread taking this step has saved is the current one or the one before. */
  predicate LagsAtMostOne(s: State, step: Step)
    requires Enabled(s, step)
  {
    0 <= s.sh.round && (step.Recheck? ==> 0 <= s.pcs[step.t].r && s.sh.round - 1 <= s.pcs[step.t].r <= s.sh.round)
  }

  lemma WrappedRecheck(s: State, t: nat, m: nat)
    requires Enabled(s, Recheck(t)) && LagsAtMostOne(s, Recheck(t)) && 2 <= m
    ensures Enabled(Wrap(s, m), Recheck(t)) && Apply(Wrap(s, m), Recheck(t), m) == Wrap(Apply(s, Recheck(t), 0), m)
  {
    var r := s.pcs[t].r;
    if r != s.sh.round {
      NeighboursDifferModulo(r, m);
    }
    WrapUpdate(s.pcs, t, Blocked(r), m);
    WrapUpdate(s.pcs, t, Idle, m);
    WrapAppend(s.log, [Returned(t, r, false)], m);
    assert Map([Returned(t, r, false)], WrapEvent(m)) == [WrapEvent(m)(Returned(t, r, false))];
  }

  lemma WrappedIsEnabled(s: State, step: Step, m: nat)
    requires 2 <= m
    ensures Enabled(Wrap(s, m), step) <==> Enabled(s, step)
  {
  }

  /** A step of the wrapping barrier by a thread that lags at most one round does what the step of the unbounded one
      does. */
  lemma WrappedStep(s: State, step: Step, m: nat)
    requires Enabled(s, step) && LagsAtMostOne(s, step) && 2 <= m
    ensures Enabled(Wrap(s, m), step) && Apply(Wrap(s, m), step, m) == Wrap(Apply(s, step, 0), m)
  {
    match step
    case Arrive(t) => WrappedArrive(s, t, m);
    case SpuriousWake(t) => WrapUpdate(s.pcs, t, Woken(s.pcs[t].r), m);
    case Recheck(t) => WrappedRecheck(s, t, m);
  }

  // ----- Few threads, or one party -----

  /** Nobody waits for a round that is over: with a single party nobody waits at all, and with too few threads, or no
      parties, no round is ever over. */
  ghost predicate NobodyLags(s: State) {
    && 0 <= s.sh.round && 0 <= s.sh.arrived
    && (forall t :: 0 <= t < |s.pcs| && !s.pcs[t].Idle? ==> s.pcs[t].r == s.sh.round)
    && Count(s.pcs, Unreleased(s.sh.round)) == s.sh.arrived
    && (1 <= s.sh.parties <= |s.pcs| ==> s.sh.parties == 1 && s.sh.arrived == 0)
  }

  lemma StepKeepsNobodyLags(s: State, step: Step)
    requires NobodyLags(s) && Enabled(s, step)
    ensures NobodyLags(Apply(s, step, 0))
  {
    var t, r := step.t, s.sh.round;
    var s' := Apply(s, step, 0);
    CountNone(s.pcs, Unreleased(r));
    CountEvery(s.pcs, Unreleased(r));
    if step.Arrive? && s.sh.arrived + 1 == s.sh.parties {
      CountUpdate(s.pcs, t, Blocked(r), Unreleased(r));
      CountEvery(s.pcs[t := Blocked(r)], Unreleased(r));
      CountNone(s'.pcs, Unreleased(r + 1));
    } else {
      CountUpdate(s.pcs, t, s'.pcs[t], Unreleased(r));
    }
  }

  /** Either way a thread lags at most one round. */
  ghost predicate Close(s: State) {
    (Inv(s) && LockStep(s)) || NobodyLags(s)
  }

  lemma StepKeepsClose(s: State, step: Step)
    requires Close(s) && Enabled(s, step)
    ensures LagsAtMostOne(s, step) && Close(Apply(s, step, 0))
  {
    if NobodyLags(s) {
      StepKeepsNobodyLags(s, step);
    } else {
      StepKeepsThreads(s, step);
      StepKeepsRounds(s, step);
      StepKeepsDistinct(s, step);
      StepKeepsLockStep(s, step);
    }
  }

  lemma StartIsClose(s: State)
    requires IsStart(s) && (s.sh.parties <= 1 || |s.pcs| <= s.sh.parties)
    ensures Close(s)
  {
    if 1 <= s.sh.parties == |s.pcs| {
      StartLockStep(s);
    } else {
      CountNone(s.pcs, Unreleased(0));
    }
  }

  lemma {:induction false} WrappedRunFrom(s: State, steps: seq<Step>, w: State, m: nat)
    requires Close(s) && 2 <= m
    requires Run(Wrap(s, m), steps, w, m)
    ensures exists s' :: Run(s, steps, s', 0) && w == Wrap(s', m)
    decreases |steps|
  {
    if steps == [] {
      assert Run(s, steps, s, 0);
    } else {
      WrappedIsEnabled(s, steps[0], m);
      StepKeepsClose(s, steps[0]);
      WrappedStep(s, steps[0], m);
      var next := Apply(s, steps[0], 0);
      WrappedRunFrom(next, steps[1..], w, m);
      var s' :| Run(next, steps[1..], s', 0) && w == Wrap(s', m);
      assert Run(s, steps, s', 0);
    }
  }

  lemma {:induction false} RunWrapsFrom(s: State, steps: seq<Step>, s': State, m: nat)
    requires Close(s) && 2 <= m
    requires Run(s, steps, s', 0)
    ensures Run(Wrap(s, m), steps, Wrap(s', m), m)
    decreases |steps|
  {
    if steps != [] {
      StepKeepsClose(s, steps[0]);
      WrappedStep(s, steps[0], m);
      RunWrapsFrom(Apply(s, steps[0], 0), steps[1..], s', m);
    }
  }

  lemma StartWraps(s: State, m: nat)
    requires IsStart(s) && 2 <= m
    ensures Wrap(s, m) == s
  {
    assert Wrap(s, m).pcs == s.pcs;
  }

  /** The barrier whose counter has `m` values does in this run what the unbounded one does. */
  ghost predicate WrapsFaithfully(s: State, steps: seq<Step>, w: State, m: nat)
    requires 2 <= m
  {
    Run(s, steps, w, m) <==> exists s' :: Run(s, steps, s', 0) && w == Wrap(s', m)
  }

  /** With no more threads than parties, or a single party, a round counter with any number m >= 2 of values -- two
      makes it a sense-reversing barrier, 2^32 the machine's counter -- has exactly the runs of the unbounded one. */
  lemma WrappingIsHarmless(s: State, steps: seq<Step>, w: State, m: nat)
    requires IsStart(s) && (s.sh.parties <= 1 || |s.pcs| <= s.sh.parties) && 2 <= m
    ensures WrapsFaithfully(s, steps, w, m)
  {
    StartIsClose(s);
    StartWraps(s, m);
    if Run(s, steps, w, m) {
      WrappedRunFrom(s, steps, w, m);
    }
    if s' :| Run(s, steps, s', 0) && w == Wrap(s', m) {
      RunWrapsFrom(s, steps, s', m);
    }
  }

  // ----- More threads than parties: a straggler sleeps through m rounds -----

  /** A run of the unbounded barrier that is also one of the wrapping barrier. */
  ghost predicate BothRun(s: State, steps: seq<Step>, s': State, m: nat)
    requires 2 <= m
  {
    Run(s, steps, s', 0) && Run(Wrap(s, m), steps, Wrap(s', m), m)
  }

  lemma BothStep(s: State, step: Step, rest: seq<Step>, s': State, m: nat)
    requires Enabled(s, step) && LagsAtMostOne(s, step) && 2 <= m
    requires BothRun(Apply(s, step, 0), rest, s', m)
    ensures BothRun(s, [step] + rest, s', m)
  {
    WrappedStep(s, step, m);
    assert ([step] + rest)[1..] == rest;
  }

  lemma {:induction false} RunsJoin(s: State, first: seq<Step>, mid: State, second: seq<Step>, s': State, m: nat)
    requires Run(s, first, mid, m) && Run(mid, second, s', m)
    ensures Run(s, first + second, s', m)
    decreases |first|
  {
    if first == [] {
      assert first + second == second;
    } else {
      RunsJoin(Apply(s, first[0], m), first[1..], mid, second, s', m);
      assert (first + second)[1..] == first[1..] + second;
    }
  }

  /** Steps determine a run. */
  lemma {:induction false} RunsAgree(s: State, steps: seq<Step>, a: State, b: State, m: nat)
    requires Run(s, steps, a, m) && Run(s, steps, b, m)
    ensures a == b
    decreases |steps|
  {
    if steps != [] {
      RunsAgree(Apply(s, steps[0], m), steps[1..], a, b, m);
    }
  }

  /** Thread 0 has been woken in round 0 and has not looked yet; threads 1 to `t - 1` are at `pc`, the others idle. */
  predicate Camp(s: State, t: nat, pc: Pc) {
    && 1 <= t <= |s.pcs| && s.pcs[0] == Woken(0) && 0 <= s.sh.round
    && (forall u :: 1 <= u < t ==> s.pcs[u] == pc)
    && (forall u :: t <= u < |s.pcs| ==> s.pcs[u] == Idle)
  }

  /** The callers of the round that is over leave. */
  lemma {:induction false} LeaveRound(s: State, t: nat, m: nat) returns (steps: seq<Step>, s': State)
    requires Camp(s, t, Woken(s.sh.round - 1)) && 1 <= s.sh.round && 2 <= m
    ensures BothRun(s, steps, s', m) && s'.sh == s.sh && |s'.pcs| == |s.pcs| && Camp(s', 1, Idle)
    decreases t
  {
    if t == 1 {
      steps, s' := [], s;
    } else {
      var step := Recheck(t - 1);
      var rest;
      rest, s' := LeaveRound(Apply(s, step, 0), t - 1, m);
      BothStep(s, step, rest, s', m);
      steps := [step] + rest;
    }
  }

  /** Threads from `t` on arrive until the round is complete, and leave. */
  lemma {:induction false} PassRound(s: State, t: nat, m: nat) returns (steps: seq<Step>, s': State)
    requires Camp(s, t, Blocked(s.sh.round)) && 2 <= m
    requires 0 <= s.sh.arrived < s.sh.parties && t + s.sh.parties - s.sh.arrived <= |s.pcs|
    ensures BothRun(s, steps, s', m) && |s'.pcs| == |s.pcs| && Camp(s', 1, Idle)
    ensures s'.sh == s.sh.(arrived := 0, round := s.sh.round + 1)
    decreases s.sh.parties - s.sh.arrived
  {
    var step := Arrive(t);
    var next := Apply(s, step, 0);
    var rest;
    if s.sh.arrived + 1 == s.sh.parties {
      rest, s' := LeaveRound(next, t, m);
    } else {
      rest, s' := PassRound(next, t + 1, m);
    }
    BothStep(s, step, rest, s', m);
    steps := [step] + rest;
  }

  lemma {:induction false} PassRounds(s: State, k: nat, m: nat) returns (steps: seq<Step>, s': State)
    requires Camp(s, 1, Idle) && 2 <= m && s.sh.arrived == 0 < s.sh.parties < |s.pcs|
    ensures BothRun(s, steps, s', m) && |s'.pcs| == |s.pcs| && Camp(s', 1, Idle)
    ensures s'.sh == s.sh.(round := s.sh.round + k)
    decreases k
  {
    if k == 0 {
      steps, s' := [], s;
    } else {
      var first, mid := PassRound(s, 1, m);
      var rest;
      rest, s' := PassRounds(mid, k - 1, m);
      RunsJoin(s, first, mid, rest, s', 0);
      RunsJoin(Wrap(s, m), first, Wrap(mid, m), rest, Wrap(s', m), m);
      steps := first + rest;
    }
  }

  /** Thread 0 arrives, is woken for no reason, and does not look before `m` rounds are over. */
  lemma SleepThroughRounds(s: State, m: nat) returns (steps: seq<Step>, s': State)
    requires IsStart(s) && 2 <= s.sh.parties < |s.pcs| && 2 <= m
    ensures BothRun(s, steps, s', m) && |s'.pcs| == |s.pcs| && Camp(s', 1, Idle) && s'.sh.round == m
  {
    var s1 := Apply(s, Arrive(0), 0);
    var s2 := Apply(s1, SpuriousWake(0), 0);
    var first, s3 := PassRound(s2, 1, m);
    var rest;
    rest, s' := PassRounds(s3, m - 1, m);
    RunsJoin(s2, first, s3, rest, s', 0);
    RunsJoin(Wrap(s2, m), first, Wrap(s3, m), rest, Wrap(s', m), m);
    BothStep(s1, SpuriousWake(0), first + rest, s', m);
    BothStep(s, Arrive(0), [SpuriousWake(0)] + (first + rest), s', m);
    steps := [Arrive(0)] + ([SpuriousWake(0)] + (first + rest));
  }

  /** With more threads than parties and at least two parties wrapping does harm, whatever the number of values: a
      straggler of round 0 that looks again in round m is released by the unbounded counter and put back to sleep by
      the one modulo m. */
  lemma StragglerMissesWrappedRound(s: State, m: nat) returns (steps: seq<Step>, s': State, w: State)
    requires IsStart(s) && 2 <= s.sh.parties < |s.pcs| && 2 <= m
    ensures |s'.pcs| == |w.pcs| == |s.pcs|
    ensures Run(s, steps, s', 0) && s'.sh.round == m && s'.pcs[0] == Idle
    ensures Run(s, steps, w, m) && w.sh.round == 0 && w.pcs[0] == Blocked(0)
  {
    var before, mid := SleepThroughRounds(s, m);
    var wrapped := Wrap(mid, m);
    Remainder(m, m, 1, 0);
    s' := Apply(mid, Recheck(0), 0);
    w := Apply(wrapped, Recheck(0), m);
    steps := before + [Recheck(0)];
    StartWraps(s, m);
    OneStep(mid, Recheck(0), 0);
    OneStep(wrapped, Recheck(0), m);
    RunsJoin(s, before, mid, [Recheck(0)], s', 0);
    RunsJoin(s, before, wrapped, [Recheck(0)], w, m);
  }

  lemma OneStep(s: State, step: Step, m: nat)
    requires Enabled(s, step)
    ensures Run(s, [step], Apply(s, step, m), m)
  {
    assert [step][1..] == [];
  }

  /** A wrapping counter is as good as an unbounded one, in all runs, exactly when there is a single party at most or
      there are no more threads than parties. */
  lemma WrappingIsHarmlessExactly(s: State, m: nat)
    requires IsStart(s) && 2 <= m
    ensures (forall steps, w :: WrapsFaithfully(s, steps, w, m)) <==> s.sh.parties <= 1 || |s.pcs| <= s.sh.parties
  {
    if s.sh.parties <= 1 || |s.pcs| <= s.sh.parties {
      forall steps, w
        ensures WrapsFaithfully(s, steps, w, m)
      {
        WrappingIsHarmless(s, steps, w, m);
      }
    } else {
      var steps, s', w := StragglerMissesWrappedRound(s, m);
      forall u | Run(s, steps, u, 0)
        ensures w != Wrap(u, m)
      {
        RunsAgree(s, steps, u, s', 0);
        assert Wrap(s', m).pcs[0] == Idle;
      }
      assert !WrapsFaithfully(s, steps, w, m);
    }
  }

  /** No step leaves everything as it was: a wake-up wakes. */
  lemma EveryStepMoves(s: State, step: Step, m: nat)
    requires Enabled(s, step)
    ensures Apply(s, step, m) != s
  {
    if step.Arrive? {
      assert Apply(s, step, m).log != s.log;
    } else {
      assert Apply(s, step, m).pcs[step.t] != s.pcs[step.t];
    }
  }
}
