/** The counting semaphore of the user-level threads: multi-unit requests, a limit, strictly first come first served. */
module Semaphore {
  import Scheduler

  type Tid = Scheduler.Tid

  datatype Waiter = Waiter(thread: Tid, units: nat)

  datatype Sem = Sem(units: nat, limit: nat, waiters: seq<Waiter>)

  /** `sem_wait`: whether the caller has to be deactivated, and the new semaphore. */
  predicate MustBlock(sem: Sem, n: nat) {
    sem.waiters != [] || sem.units < n
  }

  function AfterWait(sem: Sem, t: Tid, n: nat): Sem {
    if MustBlock(sem, n) then sem.(waiters := sem.waiters + [Waiter(t, n)]) else sem.(units := sem.units - n)
  }

  /** How many waiters the loop of `sem_post` releases when it starts with the given units. */
  function Releases(units: nat, waiters: seq<Waiter>): (k: nat)
    ensures k <= |waiters| && Sum(waiters[..k]) <= units
    decreases |waiters|
  {
    if units > 0 && waiters != [] && units >= waiters[0].units then
      var k := Releases(units - waiters[0].units, waiters[1..]);
      assert waiters[..k + 1][1..] == waiters[1..][..k];
      k + 1
    else 0
  }

  function Sum(waiters: seq<Waiter>): nat {
    if waiters == [] then 0 else waiters[0].units + Sum(waiters[1..])
  }

  function Threads(waiters: seq<Waiter>): (r: seq<Tid>)
    ensures |r| == |waiters| && forall i :: 0 <= i < |r| ==> r[i] == waiters[i].thread
  {
    seq(|waiters|, i requires 0 <= i < |waiters| => waiters[i].thread)
  }

  function Clamped(sem: Sem, n: nat): nat {
    if sem.units + n > sem.limit then sem.limit else sem.units + n
  }

  /** `sem_post`: the waiters released, in order, and the new semaphore. */
  function Woken(sem: Sem, n: nat): seq<Waiter> {
    sem.waiters[..Releases(Clamped(sem, n), sem.waiters)]
  }

  function AfterPost(sem: Sem, n: nat): Sem {
    var k := Releases(Clamped(sem, n), sem.waiters);
    Sem(Clamped(sem, n) - Sum(sem.waiters[..k]), sem.limit, sem.waiters[k..])
  }

  class SemaphoreObject {
    var units: nat
    var limit: nat
    var waiters: seq<Waiter>

    ghost function View(): Sem
      reads this
    {
      Sem(units, limit, waiters)
    }

    constructor (units: nat, limit: nat)
      ensures View() == Sem(units, limit, [])
    {
      this.units, this.limit, waiters := units, limit, [];
    }

    /** `sem_wait` by the running thread, up to the point where it goes on or another thread takes over. */
    method Wait(sched: Scheduler.SchedulerObject, n: nat) returns (blocked: bool)
      modifies this, sched
      ensures blocked <==> MustBlock(old(View()), n)
      ensures View() == AfterWait(old(View()), old(sched.running), n)
      ensures sched.View() == if blocked then Scheduler.Switch(old(sched.View())) else old(sched.View())
    {
      if waiters == [] && units >= n {
        units := units - n;
        return false;
      }
      waiters := waiters + [Waiter(sched.running, n)];
      sched.Schedule();
      return true;
    }

    /** `sem_post` with its draining loop; the threads released are appended to the ready queue in wait order. */
    method Post(sched: Scheduler.SchedulerObject, n: nat)
      modifies this, sched
      ensures View() == AfterPost(old(View()), n)
      ensures sched.running == old(sched.running)
      ensures sched.ready == old(sched.ready) + Threads(Woken(old(View()), n))
    {
      units := units + n;
      if units > limit {
        units := limit;
      }
      ghost var k := Drain(sched);
    }

    /** The loop of `sem_post`. */
    method Drain(sched: Scheduler.SchedulerObject) returns (ghost k: nat)
      modifies this`units, this`waiters, sched
      ensures k == Releases(old(units), old(waiters))
      ensures units == old(units) - Sum(old(waiters)[..k]) && waiters == old(waiters)[k..]
      ensures sched.running == old(sched.running)
      ensures sched.ready == old(sched.ready) + Threads(old(waiters)[..k])
    {
      ghost var all, start, ready := waiters, units, sched.ready;
      k := 0;
      while units > 0 && waiters != []
        invariant k <= |all| && waiters == all[k..] && sched.running == old(sched.running)
        invariant units == start - Sum(all[..k])
        invariant Releases(start, all) == k + Releases(units, waiters)
        invariant sched.ready == ready + Threads(all[..k])
        decreases |waiters|
      {
        var head := waiters[0];
        if units < head.units {
          break;
        }
        OneMore(all, k);
        units := units - head.units;
        waiters := waiters[1..];
        sched.UtActivate(head.thread);
        k := k + 1;
      }
    }
  }

  lemma OneMore(all: seq<Waiter>, k: nat)
    requires k < |all|
    ensures Sum(all[..k + 1]) == Sum(all[..k]) + all[k].units
    ensures Threads(all[..k + 1]) == Threads(all[..k]) + [all[k].thread]
    ensures all[k..][1..] == all[k + 1..] && all[k..][0] == all[k]
  {
    SumAppend(all[..k], all[k]);
    assert all[..k + 1] == all[..k] + [all[k]];
  }

  lemma {:induction false} SumAppend(waiters: seq<Waiter>, w: Waiter)
    ensures Sum(waiters + [w]) == Sum(waiters) + w.units
  {
    if waiters == [] {
      assert waiters + [w] == [w];
    } else {
      assert (waiters + [w])[1..] == waiters[1..] + [w];
      SumAppend(waiters[1..], w);
    }
  }

  lemma {:induction false} SumConcat(a: seq<Waiter>, b: seq<Waiter>)
    ensures Sum(a + b) == Sum(a) + Sum(b)
  {
    if a == [] {
      assert a + b == b;
    } else {
      assert (a + b)[1..] == a[1..] + b;
      SumConcat(a[1..], b);
    }
  }

  // ----- Which waiters a post releases -----

  /** Every shorter prefix fits, and the next one does not, unless the units have run out just before a request for
      none, which the loop does not look at. */
  lemma {:induction false} ReleasesLongestPrefix(units: nat, waiters: seq<Waiter>)
    ensures var k := Releases(units, waiters);
            k < |waiters| ==>
              (Sum(waiters[..k + 1]) <= units <==> Sum(waiters[..k]) == units && waiters[k].units == 0)
    decreases |waiters|
  {
    var k := Releases(units, waiters);
    if k < |waiters| {
      SumAppend(waiters[..k], waiters[k]);
      assert waiters[..k + 1] == waiters[..k] + [waiters[k]];
      if k > 0 {
        var rest := waiters[1..];
        ReleasesLongestPrefix(units - waiters[0].units, rest);
        assert rest[..k - 1 + 1] == waiters[..k + 1][1..];
        assert rest[..k - 1] == waiters[..k][1..];
      }
    }
  }

  predicate AllPositive(waiters: seq<Waiter>) {
    forall i :: 0 <= i < |waiters| ==> waiters[i].units >= 1
  }

  /** `sem_post` wakes exactly the longest prefix of the waiters whose requests fit in the clamped units. */
  lemma PostWakesLongestFit(sem: Sem, n: nat, j: nat)
    requires AllPositive(sem.waiters) && j <= |sem.waiters|
    ensures j <= |Woken(sem, n)| <==> Sum(sem.waiters[..j]) <= Clamped(sem, n)
  {
    var units, waiters := Clamped(sem, n), sem.waiters;
    var k := Releases(units, waiters);
    ReleasesLongestPrefix(units, waiters);
    if j <= k {
      SumConcat(waiters[..j], waiters[j..k]);
      assert waiters[..j] + waiters[j..k] == waiters[..k];
    } else {
      SumConcat(waiters[..k + 1], waiters[k + 1..j]);
      assert waiters[..k + 1] + waiters[k + 1..j] == waiters[..j];
    }
  }

  /** A request for no units behind one that takes the last unit shows why requests have to be positive. */
  lemma ZeroRequestIsPassedOver()
    ensures var sem := Sem(0, 1, [Waiter(1, 1), Waiter(2, 0)]);
            && Sum(sem.waiters[..2]) <= Clamped(sem, 1)
            && |Woken(sem, 1)| == 1
  {
    var waiters := [Waiter(1, 1), Waiter(2, 0)];
    assert waiters[1..] == [Waiter(2, 0)];
    assert waiters[..2] == waiters;
    assert Releases(1, waiters) == 1 + Releases(0, waiters[1..]);
  }

  // ----- One post or two -----

  /** `k` waiters are released, and `left` units and the waiters `tail` remain. */
  predicate Leaves(units: nat, waiters: seq<Waiter>, k: nat, left: int, tail: seq<Waiter>) {
    k == Releases(units, waiters) && left == units - Sum(waiters[..k]) && tail == waiters[k..]
  }

  lemma LeavesAfterFirst(units: nat, waiters: seq<Waiter>, k: nat, left: int, tail: seq<Waiter>)
    requires Leaves(units, waiters, k, left, tail) && k > 0
    ensures 0 < units && waiters != [] && waiters[0].units <= units
    ensures Leaves(units - waiters[0].units, waiters[1..], k - 1, left, tail)
  {
    SlicesOfTail(waiters, k);
  }

  /** With more units the loop goes on where it has stopped. */
  lemma {:induction false} ReleasesInTwoGoes(units: nat, more: nat, waiters: seq<Waiter>,
                                             k: nat, left: nat, tail: seq<Waiter>)
    requires Leaves(units, waiters, k, left, tail)
    ensures Releases(units + more, waiters) == k + Releases(left + more, tail)
    decreases k
  {
    if k > 0 {
      LeavesAfterFirst(units, waiters, k, left, tail);
      ReleasesInTwoGoes(units - waiters[0].units, more, waiters[1..], k - 1, left, tail);
    }
  }

  lemma SlicesOfTail(waiters: seq<Waiter>, k: nat)
    requires 0 < k <= |waiters|
    ensures waiters[1..][..k - 1] == waiters[..k][1..] && waiters[1..][k - 1..] == waiters[k..]
    ensures Sum(waiters[..k]) == waiters[0].units + Sum(waiters[1..][..k - 1])
  {
    assert waiters[1..][..k - 1] == waiters[..k][1..];
  }

  lemma SlicesJoin(w: seq<Waiter>, j: nat, k: nat)
    requires j + k <= |w|
    ensures w[..j] + w[j..][..k] == w[..j + k] && w[j..][k..] == w[j + k..]
    ensures Sum(w[..j]) + Sum(w[j..][..k]) == Sum(w[..j + k])
  {
    assert w[..j] + w[j..][..k] == w[..j + k];
    SumConcat(w[..j], w[j..][..k]);
  }

  /** No unit appears or disappears once the limit has been applied. */
  lemma PostConserves(sem: Sem, n: nat)
    ensures AfterPost(sem, n).units + Sum(Woken(sem, n)) == Clamped(sem, n)
  {
  }

  /** Posting `a` and then `b` leaves the state and the wake order of posting `a + b`. */
  predicate PostsAgree(sem: Sem, a: nat, b: nat) {
    && AfterPost(AfterPost(sem, a), b) == AfterPost(sem, a + b)
    && Woken(sem, a) + Woken(AfterPost(sem, a), b) == Woken(sem, a + b)
  }

  /** The outcome of two posts in terms of the waiters there were before both. */
  lemma TwoPosts(sem: Sem, a: nat, b: nat, j: nat, k: nat)
    requires j == Releases(Clamped(sem, a), sem.waiters)
    requires k == Releases(Clamped(AfterPost(sem, a), b), sem.waiters[j..])
    ensures Woken(sem, a) + Woken(AfterPost(sem, a), b) == sem.waiters[..j + k]
    ensures var end := AfterPost(AfterPost(sem, a), b);
            && end.waiters == sem.waiters[j + k..] && end.limit == sem.limit
            && end.units == Clamped(AfterPost(sem, a), b) + Sum(sem.waiters[..j]) - Sum(sem.waiters[..j + k])
  {
    SlicesJoin(sem.waiters, j, k);
  }

  lemma OnePost(sem: Sem, n: nat, k: nat)
    requires k == Releases(Clamped(sem, n), sem.waiters)
    ensures Woken(sem, n) == sem.waiters[..k]
    ensures AfterPost(sem, n) == Sem(Clamped(sem, n) - Sum(sem.waiters[..k]), sem.limit, sem.waiters[k..])
  {
  }

  /** Two posts release as many waiters as one that starts with as many units more as the second post adds. */
  lemma ShiftedReleases(sem: Sem, a: nat, b: nat, more: nat, j: nat, k: nat)
    requires Clamped(sem, a + b) == Clamped(sem, a) + more
    requires Clamped(AfterPost(sem, a), b) == AfterPost(sem, a).units + more
    requires j == Releases(Clamped(sem, a), sem.waiters)
    requires k == Releases(Clamped(AfterPost(sem, a), b), sem.waiters[j..])
    ensures j + k == Releases(Clamped(sem, a + b), sem.waiters)
  {
    OnePost(sem, a, j);
    ReleasesInTwoGoes(Clamped(sem, a), more, sem.waiters, j, AfterPost(sem, a).units, sem.waiters[j..]);
  }

  lemma ShiftedPostsAgree(sem: Sem, a: nat, b: nat, more: nat)
    requires Clamped(sem, a + b) == Clamped(sem, a) + more
    requires Clamped(AfterPost(sem, a), b) == AfterPost(sem, a).units + more
    ensures PostsAgree(sem, a, b)
  {
    var j := Releases(Clamped(sem, a), sem.waiters);
    var k := Releases(Clamped(AfterPost(sem, a), b), sem.waiters[j..]);
    OnePost(sem, a, j);
    ShiftedReleases(sem, a, b, more, j, k);
    TwoPosts(sem, a, b, j, k);
    OnePost(sem, a + b, j + k);
  }

  /** The first request for any units at all, 0 if there is none. */
  function FirstRequest(waiters: seq<Waiter>): nat {
    if waiters == [] then 0
    else if waiters[0].units > 0 then waiters[0].units
    else FirstRequest(waiters[1..])
  }

  lemma {:induction false} NothingHandedOver(units: nat, waiters: seq<Waiter>)
    ensures Sum(waiters[..Releases(units, waiters)]) == 0
       <==> FirstRequest(waiters) == 0 || FirstRequest(waiters) > units
  {
    var k := Releases(units, waiters);
    if k > 0 {
      SlicesOfTail(waiters, k);
      if waiters[0].units == 0 {
        NothingHandedOver(units, waiters[1..]);
      }
    }
  }

  /** Two posts agree with one of both amounts exactly when the limit allows both, or the second is of nothing, or the
      first meets nobody it can hand units to. Otherwise the limit cuts off units that the first post would have made
      room for. */
  lemma PostsAgreeExactly(sem: Sem, a: nat, b: nat)
    ensures PostsAgree(sem, a, b)
       <==> || sem.units + a + b <= sem.limit
            || b == 0
            || FirstRequest(sem.waiters) == 0
            || FirstRequest(sem.waiters) > Clamped(sem, a)
  {
    NothingHandedOver(Clamped(sem, a), sem.waiters);
    PostConserves(sem, a);
    var mid := AfterPost(sem, a);
    if sem.units + a + b <= sem.limit || b == 0 || Sum(Woken(sem, a)) == 0 {
      ShiftedPostsAgree(sem, a, b, Clamped(sem, a + b) - Clamped(sem, a));
    } else if PostsAgree(sem, a, b) {
      PostConserves(mid, b);
      PostConserves(sem, a + b);
      SumConcat(Woken(sem, a), Woken(mid, b));
    }
  }

  /** Posting `a` and then `b` is posting `a + b`, state and wake order alike, when the limit is not exceeded. */
  lemma PostsAddUp(sem: Sem, a: nat, b: nat)
    requires sem.units + a + b <= sem.limit
    ensures PostsAgree(sem, a, b)
  {
    PostsAgreeExactly(sem, a, b);
  }

  /** Above the limit they can differ: the clamp drops what the first post could have handed over. */
  lemma PostsDoNotAddUpAboveLimit()
    ensures !PostsAgree(Sem(0, 1, [Waiter(1, 1), Waiter(2, 1)]), 1, 1)
  {
    PostsAgreeExactly(Sem(0, 1, [Waiter(1, 1), Waiter(2, 1)]), 1, 1);
  }

  // ----- Runs -----

  datatype Op = Wait(t: Tid, n: nat) | Post(n: nat)

  /** A semaphore with its history: the requests in the order made, the grants in the order made, the units posted. */
  datatype State = State(sem: Sem, requests: seq<Waiter>, grants: seq<Waiter>, posted: nat)

  function Apply(s: State, op: Op): State {
    match op
    case Wait(t, n) =>
      State(AfterWait(s.sem, t, n), s.requests + [Waiter(t, n)],
            if MustBlock(s.sem, n) then s.grants else s.grants + [Waiter(t, n)], s.posted)
    case Post(n) => State(AfterPost(s.sem, n), s.requests, s.grants + Woken(s.sem, n), s.posted + n)
  }

  function After(s: State, ops: seq<Op>): State
    decreases |ops|
  {
    if ops == [] then s else After(Apply(s, ops[0]), ops[1..])
  }

  predicate Inv(s: State) {
    && s.grants + s.sem.waiters == s.requests
    && s.sem.units <= s.sem.limit
    && (s.sem.waiters != [] ==> s.sem.units == 0 || s.sem.units < s.sem.waiters[0].units)
  }

  lemma JoinIsAssociative(a: seq<Waiter>, b: seq<Waiter>, c: seq<Waiter>)
    ensures a + b + c == a + (b + c)
  {
  }

  lemma PostLeavesHeadBlocked(sem: Sem, n: nat)
    ensures var sem' := AfterPost(sem, n);
            && sem'.units <= sem.limit && Woken(sem, n) + sem'.waiters == sem.waiters
            && (sem'.waiters != [] ==> sem'.units == 0 || sem'.units < sem'.waiters[0].units)
  {
    var units := Clamped(sem, n);
    var k := Releases(units, sem.waiters);
    ReleasesLongestPrefix(units, sem.waiters);
    if k < |sem.waiters| {
      SumAppend(sem.waiters[..k], sem.waiters[k]);
      assert sem.waiters[..k + 1] == sem.waiters[..k] + [sem.waiters[k]];
    }
  }

  lemma StepKeepsInv(s: State, op: Op)
    requires Inv(s)
    ensures Inv(Apply(s, op)) && Apply(s, op).sem.limit == s.sem.limit && s.grants <= Apply(s, op).grants
  {
    match op
    case Wait(t, n) =>
      assert s.grants + (s.sem.waiters + [Waiter(t, n)]) == s.grants + s.sem.waiters + [Waiter(t, n)];
    case Post(n) =>
      PostLeavesHeadBlocked(s.sem, n);
      JoinIsAssociative(s.grants, Woken(s.sem, n), AfterPost(s.sem, n).waiters);
  }

  /** Strictly first come first served over every run: the grants, then the waiters, are the requests in order; the
      units stay within the limit; and whoever heads the queue asks for more than there is. */
  lemma {:induction false} FirstComeFirstServed(s: State, ops: seq<Op>)
    requires Inv(s)
    ensures var s' := After(s, ops);
            && Inv(s')
            && s'.sem.limit == s.sem.limit
            && s.grants <= s'.grants
            && (s'.sem.waiters != [] && s'.sem.waiters[0].units >= 1 ==> s'.sem.units < s'.sem.waiters[0].units)
    decreases |ops|
  {
    if ops != [] {
      StepKeepsInv(s, ops[0]);
      FirstComeFirstServed(Apply(s, ops[0]), ops[1..]);
    }
  }

  /** Units granted and not posted back. */
  function Held(s: State): int {
    Sum(s.grants) - s.posted
  }

  /** Every post is of units that are held. */
  predicate Disciplined(s: State, ops: seq<Op>)
    decreases |ops|
  {
    ops == [] || ((ops[0].Post? ==> ops[0].n <= Held(s)) && Disciplined(Apply(s, ops[0]), ops[1..]))
  }

  lemma StepConserves(s: State, op: Op)
    requires op.Post? ==> op.n <= Held(s)
    requires s.sem.units + Held(s) <= s.sem.limit
    ensures Apply(s, op).sem.units + Held(Apply(s, op)) == s.sem.units + Held(s)
    ensures op.Post? ==> Clamped(s.sem, op.n) == s.sem.units + op.n
  {
    match op
    case Wait(t, n) => SumAppend(s.grants, Waiter(t, n));
    case Post(n) =>
      SumConcat(s.grants, Woken(s.sem, n));
      PostConserves(s.sem, n);
  }

  /** If callers post only what they hold, units and held units together never change, and no post is clamped. */
  lemma {:induction false} UnitsAreConserved(s: State, ops: seq<Op>, k: nat)
    requires Inv(s) && Disciplined(s, ops) && k <= |ops|
    requires s.sem.units + Held(s) <= s.sem.limit
    ensures var s' := After(s, ops[..k]);
            && s'.sem.units + Held(s') == s.sem.units + Held(s)
            && (k < |ops| && ops[k].Post? ==> Clamped(s'.sem, ops[k].n) == s'.sem.units + ops[k].n)
    decreases k
  {
    if k > 0 {
      StepKeepsInv(s, ops[0]);
      StepConserves(s, ops[0]);
      UnitsAreConserved(Apply(s, ops[0]), ops[1..], k - 1);
      assert ops[..k][1..] == ops[1..][..k - 1];
    } else if ops != [] {
      StepConserves(s, ops[0]);
    }
  }

  // ----- Who can be granted at all -----

  lemma WokenAskedWithinLimit(sem: Sem, n: nat)
    ensures forall w :: w in Woken(sem, n) ==> w.units <= sem.limit
  {
    MembersAtMostSum(Woken(sem, n));
  }

  lemma {:induction false} MembersAtMostSum(waiters: seq<Waiter>)
    ensures forall w :: w in waiters ==> w.units <= Sum(waiters)
  {
    if waiters != [] {
      MembersAtMostSum(waiters[1..]);
    }
  }

  /** A waiter behind a request that exceeds the limit is never reached. */
  lemma {:induction false} NeverGranted(s: State, ops: seq<Op>, q: nat)
    requires Inv(s) && q < |s.sem.waiters| && s.sem.waiters[q].units > s.sem.limit
    ensures |After(s, ops).grants| <= |s.grants| + q
    decreases |ops|
  {
    if ops != [] {
      var next := Apply(s, ops[0]);
      StepKeepsInv(s, ops[0]);
      if ops[0].Post? {
        var woken := Woken(s.sem, ops[0].n);
        WokenAskedWithinLimit(s.sem, ops[0].n);
        NeverGranted(next, ops[1..], q - |woken|);
      } else {
        NeverGranted(next, ops[1..], q);
      }
    }
  }

  /** Posting the limit once per waiter grants everybody whose predecessors and self ask for no more than the limit. */
  lemma {:induction false} PostingGrants(s: State, p: nat) returns (ops: seq<Op>)
    requires Inv(s) && s.sem.limit > 0 && p < |s.sem.waiters|
    requires forall q :: 0 <= q <= p ==> s.sem.waiters[q].units <= s.sem.limit
    ensures |After(s, ops).grants| > |s.grants| + p
    decreases p
  {
    var next := Apply(s, Post(s.sem.limit));
    StepKeepsInv(s, Post(s.sem.limit));
    var woken := Woken(s.sem, s.sem.limit);
    assert |woken| >= 1;
    if |woken| > p {
      ops := [Post(s.sem.limit)];
      assert After(next, ops[1..]) == next;
    } else {
      assert forall i :: 0 <= i < |next.sem.waiters| ==> next.sem.waiters[i] == s.sem.waiters[i + |woken|];
      var rest := PostingGrants(next, p - |woken|);
      ops := [Post(s.sem.limit)] + rest;
      assert ops[1..] == rest;
    }
  }

  /** With a limit of zero the loop never starts. */
  lemma {:induction false} NothingWithoutLimit(s: State, ops: seq<Op>)
    requires Inv(s) && s.sem.limit == 0 && s.sem.waiters != []
    ensures After(s, ops).grants == s.grants
    decreases |ops|
  {
    if ops != [] {
      StepKeepsInv(s, ops[0]);
      NothingWithoutLimit(Apply(s, ops[0]), ops[1..]);
    }
  }

  /** The waiter at position `p` can be granted by some future exactly when the limit is positive and neither it nor
      anybody before it asks for more. */
  lemma GrantableExactly(s: State, p: nat)
    requires Inv(s) && p < |s.sem.waiters|
    ensures (exists ops :: |After(s, ops).grants| > |s.grants| + p)
       <==> s.sem.limit > 0 && forall q :: 0 <= q <= p ==> s.sem.waiters[q].units <= s.sem.limit
  {
    if s.sem.limit == 0 {
      forall ops
        ensures |After(s, ops).grants| <= |s.grants| + p
      {
        NothingWithoutLimit(s, ops);
      }
    } else if forall q :: 0 <= q <= p ==> s.sem.waiters[q].units <= s.sem.limit {
      var ops := PostingGrants(s, p);
      assert |After(s, ops).grants| > |s.grants| + p;
    } else {
      var q :| 0 <= q <= p && s.sem.waiters[q].units > s.sem.limit;
      forall ops
        ensures |After(s, ops).grants| <= |s.grants| + p
      {
        NeverGranted(s, ops, q);
      }
    }
  }
}
