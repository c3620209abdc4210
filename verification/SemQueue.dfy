/** The bounded message queue made of a list and two semaphores and no mutex. Threads switch only inside the
    semaphores, so everything between two waits is one step; which granted thread resumes next is left open, so
    the results hold for every cooperative scheduling order. */
module SemQueue {
  import opened Threads
  import Scheduler
  import Semaphore

  type Sem = Semaphore.Sem
  type Waiter = Semaphore.Waiter

  const MAX_MSG: nat := 128

  /** What a node keeps of a message: the last byte is forced to be the terminator. */
  function Stored(msg: string): string {
    if |msg| < MAX_MSG then msg else msg[..MAX_MSG - 1]
  }

  /** A message is kept whole if it fits with its terminator, and cut to 127 characters if not. */
  lemma StoredIsCut(msg: string)
    ensures Stored(msg) <= msg && |Stored(msg)| == if |msg| < 128 then |msg| else 127
  {
  }

  class QueueObject {
    var list: seq<string>
    const elemAvailable: Semaphore.SemaphoreObject
    const spaceAvailable: Semaphore.SemaphoreObject

    constructor (maxSize: nat)
      ensures list == [] && fresh(elemAvailable) && fresh(spaceAvailable) && elemAvailable != spaceAvailable
      ensures elemAvailable.View() == Semaphore.Sem(0, maxSize, [])
      ensures spaceAvailable.View() == Semaphore.Sem(maxSize, maxSize, [])
    {
      list := [];
      elemAvailable := new Semaphore.SemaphoreObject(0, maxSize);
      spaceAvailable := new Semaphore.SemaphoreObject(maxSize, maxSize);
    }

    /** `queue_put` up to its end, or to the switch away when there is no space. */
    method Put(sched: Scheduler.SchedulerObject, msg: string) returns (blocked: bool)
      requires elemAvailable != spaceAvailable
      modifies this, elemAvailable, spaceAvailable, sched
      ensures blocked <==> Semaphore.MustBlock(old(spaceAvailable.View()), 1)
      ensures spaceAvailable.View() == Semaphore.AfterWait(old(spaceAvailable.View()), old(sched.running), 1)
      ensures blocked ==> list == old(list) && elemAvailable.View() == old(elemAvailable.View())
      ensures blocked ==> sched.View() == Scheduler.Switch(old(sched.View()))
      ensures !blocked ==> list == old(list) + [Stored(msg)]
      ensures !blocked ==> elemAvailable.View() == Semaphore.AfterPost(old(elemAvailable.View()), 1)
      ensures !blocked ==> sched.running == old(sched.running)
      ensures !blocked ==> sched.ready == old(sched.ready) +
                             Semaphore.Threads(Semaphore.Woken(old(elemAvailable.View()), 1))
    {
      blocked := spaceAvailable.Wait(sched, 1);
      if !blocked {
        FinishPut(sched, msg);
      }
    }

    /** `queue_get` likewise; every free element unit stands for a message in the list. */
    method Get(sched: Scheduler.SchedulerObject) returns (blocked: bool, msg: string)
      requires elemAvailable != spaceAvailable && elemAvailable.units <= |list|
      modifies this, elemAvailable, spaceAvailable, sched
      ensures blocked <==> Semaphore.MustBlock(old(elemAvailable.View()), 1)
      ensures elemAvailable.View() == Semaphore.AfterWait(old(elemAvailable.View()), old(sched.running), 1)
      ensures blocked ==> list == old(list) && spaceAvailable.View() == old(spaceAvailable.View())
      ensures blocked ==> sched.View() == Scheduler.Switch(old(sched.View()))
      ensures !blocked ==> [msg] + list == old(list)
      ensures !blocked ==> spaceAvailable.View() == Semaphore.AfterPost(old(spaceAvailable.View()), 1)
      ensures !blocked ==> sched.running == old(sched.running)
      ensures !blocked ==> sched.ready == old(sched.ready) +
                             Semaphore.Threads(Semaphore.Woken(old(spaceAvailable.View()), 1))
    {
      msg := "";
      blocked := elemAvailable.Wait(sched, 1);
      if !blocked {
        msg := FinishGet(sched);
      }
    }

    /** `queue_put` from the moment its space has been granted. */
    method FinishPut(sched: Scheduler.SchedulerObject, msg: string)
      modifies this, elemAvailable, sched
      ensures list == old(list) + [Stored(msg)]
      ensures elemAvailable.View() == Semaphore.AfterPost(old(elemAvailable.View()), 1)
      ensures sched.running == old(sched.running)
      ensures sched.ready == old(sched.ready) +
                Semaphore.Threads(Semaphore.Woken(old(elemAvailable.View()), 1))
    {
      list := list + [Stored(msg)];
      elemAvailable.Post(sched, 1);
    }

    /** `queue_get` from the moment an element has been granted. */
    method FinishGet(sched: Scheduler.SchedulerObject) returns (msg: string)
      requires list != []
      modifies this, spaceAvailable, sched
      ensures [msg] + list == old(list)
      ensures spaceAvailable.View() == Semaphore.AfterPost(old(spaceAvailable.View()), 1)
      ensures sched.running == old(sched.running)
      ensures sched.ready == old(sched.ready) +
                Semaphore.Threads(Semaphore.Woken(old(spaceAvailable.View()), 1))
    {
      msg := list[0];
      list := list[1..];
      spaceAvailable.Post(sched, 1);
    }
  }

  /** A thread waits in one of the semaphores, has been granted its unit and not yet resumed, or is outside. */
  datatype Pc = Idle | PutWaiting(msg: string) | PutGranted(msg: string) | GetWaiting | GetGranted

  /** A message and the thread that sent it. */
  datatype Sent = Sent(t: nat, text: string)

  /** `puts` and `gots` record the messages stored and delivered, `emptyRemovals` the removals that met an empty list,
      and `unitsLost` the posts that the limit of a semaphore swallowed. */
  datatype State = State(list: seq<string>, elems: Sem, space: Sem, pcs: seq<Pc>,
                         puts: seq<Sent>, gots: seq<string>, emptyRemovals: nat, unitsLost: nat)

  datatype Step = PutStart(t: nat, msg: string) | PutResume(t: nat) | GetStart(t: nat) | GetResume(t: nat)

  predicate IsStart(s: State) {
    && s.list == [] && s.puts == [] && s.gots == [] && s.emptyRemovals == 0 && s.unitsLost == 0
    && s.elems == Semaphore.Sem(0, s.space.limit, [])
    && s.space == Semaphore.Sem(s.space.limit, s.space.limit, [])
    && (forall t :: 0 <= t < |s.pcs| ==> s.pcs[t] == Idle)
  }

  predicate Enabled(s: State, step: Step) {
    && step.t < |s.pcs|
    && match step
       case PutStart(t, _) => s.pcs[t] == Idle
       case GetStart(t) => s.pcs[t] == Idle
       case PutResume(t) => s.pcs[t].PutGranted?
       case GetResume(t) => s.pcs[t] == GetGranted
  }

  function Granted(pc: Pc): Pc {
    match pc
    case PutWaiting(msg) => PutGranted(msg)
    case GetWaiting => GetGranted
    case _ => pc
  }

  function Grant(pcs: seq<Pc>, woken: seq<Waiter>): seq<Pc> {
    seq(|pcs|, t requires 0 <= t < |pcs| => if t in Semaphore.Threads(woken) then Granted(pcs[t]) else pcs[t])
  }

  function Lost(sem: Sem): nat {
    if sem.units + 1 > sem.limit then 1 else 0
  }

  function Store(s: State, t: nat, msg: string): State {
    s.(list := s.list + [Stored(msg)], puts := s.puts + [Sent(t, Stored(msg))])
  }

  /** The message is in the list and the element posted, which has left `elems` and granted `woken`. */
  function Posted(s: State, t: nat, elems: Sem, woken: seq<Waiter>): State
    requires t < |s.pcs|
  {
    s.(elems := elems, pcs := Grant(s.pcs[t := Idle], woken), unitsLost := s.unitsLost + Lost(s.elems))
  }

  function FinishPut(s: State, t: nat, msg: string): State
    requires t < |s.pcs|
  {
    Posted(Store(s, t, msg), t, Semaphore.AfterPost(s.elems, 1), Semaphore.Woken(s.elems, 1))
  }

  function FinishGet(s: State, t: nat): State
    requires t < |s.pcs|
  {
    var space, pcs := Semaphore.AfterPost(s.space, 1), Grant(s.pcs[t := Idle], Semaphore.Woken(s.space, 1));
    var lost := s.unitsLost + Lost(s.space);
    if s.list == [] then s.(space := space, pcs := pcs, unitsLost := lost, emptyRemovals := s.emptyRemovals + 1)
    else s.(space := space, pcs := pcs, unitsLost := lost, list := s.list[1..], gots := s.gots + [s.list[0]])
  }

  function Apply(s: State, step: Step): State
    requires Enabled(s, step)
  {
    match step
    case PutStart(t, msg) =>
      var s' := s.(space := Semaphore.AfterWait(s.space, t, 1));
      if Semaphore.MustBlock(s.space, 1) then s'.(pcs := s.pcs[t := PutWaiting(msg)]) else FinishPut(s', t, msg)
    case PutResume(t) => FinishPut(s, t, s.pcs[t].msg)
    case GetStart(t) =>
      var s' := s.(elems := Semaphore.AfterWait(s.elems, t, 1));
      if Semaphore.MustBlock(s.elems, 1) then s'.(pcs := s.pcs[t := GetWaiting]) else FinishGet(s', t)
    case GetResume(t) => FinishGet(s, t)
  }

  ghost predicate Run(s: State, steps: seq<Step>, s': State)
    decreases |steps|
  {
    if steps == [] then s == s' else Enabled(s, steps[0]) && Run(Apply(s, steps[0]), steps[1..], s')
  }

  // ----- The invariant -----

  predicate IsPutWaiting(pc: Pc) { pc.PutWaiting? }
  predicate IsPutGranted(pc: Pc) { pc.PutGranted? }
  predicate IsGetWaiting(pc: Pc) { pc == GetWaiting }
  predicate IsGetGranted(pc: Pc) { pc == GetGranted }

  /** One of the two semaphores: units are free only when nobody waits, and its waiters, all different and each for
      one unit, are exactly the threads at the given point. */
  ghost predicate SemInv(sem: Sem, pcs: seq<Pc>, waiting: Pc -> bool) {
    && (sem.waiters != [] ==> sem.units == 0)
    && (forall i :: 0 <= i < |sem.waiters| ==>
          && sem.waiters[i].units == 1 && sem.waiters[i].thread < |pcs| && waiting(pcs[sem.waiters[i].thread]))
    && (forall i, j :: 0 <= i < j < |sem.waiters| ==> sem.waiters[i].thread != sem.waiters[j].thread)
    && (forall t :: 0 <= t < |pcs| && waiting(pcs[t]) ==> t in Semaphore.Threads(sem.waiters))
  }

  function Texts(sent: seq<Sent>): seq<string> {
    Map(sent, (x: Sent) => x.text)
  }

  /** The units of the invariant are those before a post: `putting` and `getting` are 1 for a thread that has its
      unit and has not yet stored or removed its message. */
  ghost predicate Balance(s: State, putting: nat, getting: nat) {
    && |s.list| == s.elems.units + Count(s.pcs, IsGetGranted) + getting
    && s.space.units + Count(s.pcs, IsPutGranted) + putting + |s.list| == s.space.limit == s.elems.limit
    && Texts(s.puts) == s.gots + s.list
    && s.emptyRemovals == 0 && s.unitsLost == 0
    && SemInv(s.elems, s.pcs, IsGetWaiting)
    && SemInv(s.space, s.pcs, IsPutWaiting)
  }

  ghost predicate Inv(s: State) {
    Balance(s, 0, 0)
  }

  lemma StartInv(s: State)
    requires IsStart(s)
    ensures Inv(s)
  {
    CountNone(s.pcs, IsGetGranted);
    CountNone(s.pcs, IsPutGranted);
    NobodyWaits(s.elems, s.pcs, IsGetWaiting);
    NobodyWaits(s.space, s.pcs, IsPutWaiting);
  }

  lemma NobodyWaits(sem: Sem, pcs: seq<Pc>, waiting: Pc -> bool)
    requires sem.waiters == [] && forall t :: 0 <= t < |pcs| ==> !waiting(pcs[t])
    ensures SemInv(sem, pcs, waiting)
  {
  }

  /** A post of one unit keeps it when nobody waits. */
  lemma UnitIsKept(sem: Sem)
    requires sem.units + 1 <= sem.limit && sem.waiters == []
    ensures Semaphore.Woken(sem, 1) == [] && Semaphore.AfterPost(sem, 1) == sem.(units := sem.units + 1)
  {
  }

  /** Otherwise it is handed to the first waiter. */
  lemma UnitIsHandedOver(sem: Sem)
    requires sem.units == 0 < sem.limit && sem.waiters != [] && sem.waiters[0].units == 1
    ensures Semaphore.Woken(sem, 1) == [sem.waiters[0]]
    ensures Semaphore.AfterPost(sem, 1) == sem.(waiters := sem.waiters[1..])
  {
    assert Semaphore.Releases(1, sem.waiters) == 1 + Semaphore.Releases(0, sem.waiters[1..]);
    assert sem.waiters[..1] == [sem.waiters[0]];
    assert sem.waiters[..1][1..] == [];
  }

  lemma GrantOne(pcs: seq<Pc>, t: nat, w: Waiter)
    requires t < |pcs| && pcs[t] == Idle && w.thread < |pcs|
    ensures Grant(pcs[t := Idle], [w]) == pcs[w.thread := Granted(pcs[w.thread])]
  {
    assert pcs[t := Idle] == pcs;
    assert Semaphore.Threads([w]) == [w.thread];
  }

  lemma GrantNobody(pcs: seq<Pc>, t: nat)
    requires t < |pcs| && pcs[t] == Idle
    ensures Grant(pcs[t := Idle], []) == pcs
  {
    assert pcs[t := Idle] == pcs;
  }

  lemma Moved(pcs: seq<Pc>, t: nat, pc: Pc)
    requires t < |pcs|
    ensures Count(pcs[t := pc], IsGetGranted)
         == Count(pcs, IsGetGranted) - (if IsGetGranted(pcs[t]) then 1 else 0) + (if IsGetGranted(pc) then 1 else 0)
    ensures Count(pcs[t := pc], IsPutGranted)
         == Count(pcs, IsPutGranted) - (if IsPutGranted(pcs[t]) then 1 else 0) + (if IsPutGranted(pc) then 1 else 0)
  {
    CountUpdate(pcs, t, pc, IsGetGranted);
    CountUpdate(pcs, t, pc, IsPutGranted);
  }

  /** Handing the unit to the first waiter keeps the semaphore's waiters in step with the threads. */
  lemma HeadLeaves(sem: Sem, pcs: seq<Pc>, waiting: Pc -> bool)
    requires SemInv(sem, pcs, waiting) && sem.waiters != [] && !waiting(Granted(pcs[sem.waiters[0].thread]))
    ensures var t := sem.waiters[0].thread;
            SemInv(sem.(waiters := sem.waiters[1..]), pcs[t := Granted(pcs[t])], waiting)
  {
    var t := sem.waiters[0].thread;
    var rest := sem.waiters[1..];
    forall u | 0 <= u < |pcs| && u != t && waiting(pcs[u])
      ensures u in Semaphore.Threads(rest)
    {
      var i :| 0 <= i < |sem.waiters| && Semaphore.Threads(sem.waiters)[i] == u;
      assert Semaphore.Threads(rest)[i - 1] == u;
    }
  }

  /** A thread that does not wait here, and will not, can move without disturbing the semaphore. */
  lemma BystanderMoves(sem: Sem, pcs: seq<Pc>, waiting: Pc -> bool, t: nat, pc: Pc)
    requires SemInv(sem, pcs, waiting) && t < |pcs| && !waiting(pcs[t]) && !waiting(pc)
    ensures SemInv(sem, pcs[t := pc], waiting)
  {
  }

  lemma StoringKeepsOrder(puts: seq<Sent>, gots: seq<string>, list: seq<string>, x: Sent)
    requires Texts(puts) == gots + list
    ensures Texts(puts + [x]) == gots + (list + [x.text])
  {
  }

  lemma RemovingKeepsOrder(puts: seq<Sent>, gots: seq<string>, list: seq<string>)
    requires Texts(puts) == gots + list && list != []
    ensures Texts(puts) == gots + [list[0]] + list[1..]
  {
  }

  lemma FreeUnitsChange(sem: Sem, pcs: seq<Pc>, waiting: Pc -> bool, units: nat)
    requires SemInv(sem, pcs, waiting) && sem.waiters == []
    ensures SemInv(sem.(units := units), pcs, waiting)
  {
  }

  /** What `queue_put` leaves behind when nobody waits for an element, and what when somebody does. */
  lemma PostedToNobody(s: State, t: nat, elems: Sem)
    requires t < |s.pcs| && s.pcs[t] == Idle && s.elems.units + 1 <= s.elems.limit
    ensures Posted(s, t, elems, []) == s.(elems := elems)
  {
    GrantNobody(s.pcs, t);
  }

  lemma PostedToOne(s: State, t: nat, elems: Sem, w: Waiter)
    requires t < |s.pcs| && s.pcs[t] == Idle && s.elems.units + 1 <= s.elems.limit && w.thread < |s.pcs|
    ensures Posted(s, t, elems, [w]) == s.(elems := elems, pcs := s.pcs[w.thread := Granted(s.pcs[w.thread])])
  {
    GrantOne(s.pcs, t, w);
  }

  lemma PutEffect(s: State, t: nat, msg: string)
    requires t < |s.pcs| && s.pcs[t] == Idle && s.elems.waiters == [] && s.elems.units + 1 <= s.elems.limit
    ensures FinishPut(s, t, msg) == Store(s, t, msg).(elems := s.elems.(units := s.elems.units + 1))
  {
    UnitIsKept(s.elems);
    PostedToNobody(Store(s, t, msg), t, s.elems.(units := s.elems.units + 1));
  }

  lemma PutWakingEffect(s: State, t: nat, msg: string, w: Waiter)
    requires t < |s.pcs| && s.pcs[t] == Idle && s.elems.waiters != [] && s.elems.units == 0 < s.elems.limit
    requires w == s.elems.waiters[0] && w.units == 1 && w.thread < |s.pcs| && s.pcs[w.thread] == GetWaiting
    ensures FinishPut(s, t, msg) ==
              Store(s, t, msg).(elems := s.elems.(waiters := s.elems.waiters[1..]),
                                pcs := s.pcs[w.thread := GetGranted])
  {
    UnitIsHandedOver(s.elems);
    PostedToOne(Store(s, t, msg), t, s.elems.(waiters := s.elems.waiters[1..]), w);
  }

  lemma PutKeepsUnit(s: State, t: nat, msg: string)
    requires t < |s.pcs| && s.pcs[t] == Idle && Balance(s, 1, 0) && s.elems.waiters == []
    ensures Inv(FinishPut(s, t, msg))
  {
    PutEffect(s, t, msg);
    StoringKeepsOrder(s.puts, s.gots, s.list, Sent(t, Stored(msg)));
    FreeUnitsChange(s.elems, s.pcs, IsGetWaiting, s.elems.units + 1);
  }

  lemma PutWakesGetter(s: State, t: nat, msg: string)
    requires t < |s.pcs| && s.pcs[t] == Idle && Balance(s, 1, 0) && s.elems.waiters != []
    ensures Inv(FinishPut(s, t, msg))
  {
    var w := s.elems.waiters[0];
    PutWakingEffect(s, t, msg, w);
    StoringKeepsOrder(s.puts, s.gots, s.list, Sent(t, Stored(msg)));
    Moved(s.pcs, w.thread, GetGranted);
    HeadLeaves(s.elems, s.pcs, IsGetWaiting);
    BystanderMoves(s.space, s.pcs, IsPutWaiting, w.thread, GetGranted);
  }

  lemma FinishPutKeepsInv(s: State, t: nat, msg: string)
    requires t < |s.pcs| && s.pcs[t] == Idle && Balance(s, 1, 0)
    ensures Inv(FinishPut(s, t, msg))
  {
    if s.elems.waiters == [] {
      PutKeepsUnit(s, t, msg);
    } else {
      PutWakesGetter(s, t, msg);
    }
  }

  /** The same for `queue_get`. */
  lemma GetEffect(s: State, t: nat)
    requires t < |s.pcs| && s.pcs[t] == Idle && s.space.waiters == [] && s.space.units + 1 <= s.space.limit
    requires s.list != []
    ensures FinishGet(s, t) ==
              s.(space := s.space.(units := s.space.units + 1), list := s.list[1..], gots := s.gots + [s.list[0]])
  {
    UnitIsKept(s.space);
    GrantNobody(s.pcs, t);
  }

  lemma GetWakingEffect(s: State, t: nat, w: Waiter)
    requires t < |s.pcs| && s.pcs[t] == Idle && s.space.waiters != [] && s.space.units == 0 < s.space.limit
    requires w == s.space.waiters[0] && w.units == 1 && w.thread < |s.pcs| && s.list != []
    ensures FinishGet(s, t) ==
              s.(space := s.space.(waiters := s.space.waiters[1..]), list := s.list[1..],
                 gots := s.gots + [s.list[0]], pcs := s.pcs[w.thread := Granted(s.pcs[w.thread])])
  {
    UnitIsHandedOver(s.space);
    GrantOne(s.pcs, t, w);
  }

  lemma GetKeepsUnit(s: State, t: nat)
    requires t < |s.pcs| && s.pcs[t] == Idle && Balance(s, 0, 1) && s.space.waiters == []
    ensures Inv(FinishGet(s, t))
  {
    GetEffect(s, t);
    RemovingKeepsOrder(s.puts, s.gots, s.list);
    FreeUnitsChange(s.space, s.pcs, IsPutWaiting, s.space.units + 1);
  }

  lemma GetWakesPutter(s: State, t: nat)
    requires t < |s.pcs| && s.pcs[t] == Idle && Balance(s, 0, 1) && s.space.waiters != []
    ensures Inv(FinishGet(s, t))
  {
    var w := s.space.waiters[0];
    GetWakingEffect(s, t, w);
    RemovingKeepsOrder(s.puts, s.gots, s.list);
    Moved(s.pcs, w.thread, Granted(s.pcs[w.thread]));
    HeadLeaves(s.space, s.pcs, IsPutWaiting);
    BystanderMoves(s.elems, s.pcs, IsGetWaiting, w.thread, Granted(s.pcs[w.thread]));
  }

  lemma FinishGetKeepsInv(s: State, t: nat)
    requires t < |s.pcs| && s.pcs[t] == Idle && Balance(s, 0, 1)
    ensures Inv(FinishGet(s, t))
  {
    if s.space.waiters == [] {
      GetKeepsUnit(s, t);
    } else {
      GetWakesPutter(s, t);
    }
  }

  /** A thread that finds no unit joins the waiters. */
  lemma JoinsWaiters(sem: Sem, pcs: seq<Pc>, waiting: Pc -> bool, t: nat, pc: Pc)
    requires SemInv(sem, pcs, waiting) && t < |pcs| && !waiting(pcs[t]) && waiting(pc)
    requires Semaphore.MustBlock(sem, 1)
    ensures SemInv(Semaphore.AfterWait(sem, t, 1), pcs[t := pc], waiting)
  {
    var sem' := Semaphore.AfterWait(sem, t, 1);
    assert t !in Semaphore.Threads(sem.waiters);
    assert Semaphore.Threads(sem'.waiters) == Semaphore.Threads(sem.waiters) + [t];
  }

  lemma PutStartKeepsInv(s: State, t: nat, msg: string)
    requires Inv(s) && Enabled(s, PutStart(t, msg))
    ensures Inv(Apply(s, PutStart(t, msg)))
  {
    if Semaphore.MustBlock(s.space, 1) {
      Moved(s.pcs, t, PutWaiting(msg));
      JoinsWaiters(s.space, s.pcs, IsPutWaiting, t, PutWaiting(msg));
      BystanderMoves(s.elems, s.pcs, IsGetWaiting, t, PutWaiting(msg));
    } else {
      FinishPutKeepsInv(s.(space := Semaphore.AfterWait(s.space, t, 1)), t, msg);
    }
  }

  lemma GetStartKeepsInv(s: State, t: nat)
    requires Inv(s) && Enabled(s, GetStart(t))
    ensures Inv(Apply(s, GetStart(t)))
  {
    if Semaphore.MustBlock(s.elems, 1) {
      Moved(s.pcs, t, GetWaiting);
      JoinsWaiters(s.elems, s.pcs, IsGetWaiting, t, GetWaiting);
      BystanderMoves(s.space, s.pcs, IsPutWaiting, t, GetWaiting);
    } else {
      FinishGetKeepsInv(s.(elems := Semaphore.AfterWait(s.elems, t, 1)), t);
    }
  }

  /** A thread that resumes with its unit is like one that never had to wait. */
  lemma ResumeBalances(s: State, t: nat)
    requires Inv(s) && t < |s.pcs| && (s.pcs[t].PutGranted? || s.pcs[t] == GetGranted)
    ensures Balance(s.(pcs := s.pcs[t := Idle]), if s.pcs[t].PutGranted? then 1 else 0,
                    if s.pcs[t] == GetGranted then 1 else 0)
  {
    Moved(s.pcs, t, Idle);
    BystanderMoves(s.elems, s.pcs, IsGetWaiting, t, Idle);
    BystanderMoves(s.space, s.pcs, IsPutWaiting, t, Idle);
  }

  lemma StepKeepsInv(s: State, step: Step)
    requires Inv(s) && Enabled(s, step)
    ensures Inv(Apply(s, step))
  {
    var t := step.t;
    var idle := s.(pcs := s.pcs[t := Idle]);
    assert idle.pcs[t := Idle] == s.pcs[t := Idle];
    match step
    case PutStart(_, msg) => PutStartKeepsInv(s, t, msg);
    case GetStart(_) => GetStartKeepsInv(s, t);
    case PutResume(_) =>
      ResumeBalances(s, t);
      FinishPutKeepsInv(idle, t, s.pcs[t].msg);
    case GetResume(_) =>
      ResumeBalances(s, t);
      FinishGetKeepsInv(idle, t);
  }

  lemma {:induction false} RunKeepsInv(s: State, steps: seq<Step>, s': State)
    requires Inv(s) && Run(s, steps, s')
    ensures Inv(s') && s'.space.limit == s.space.limit && |s'.pcs| == |s.pcs|
    decreases |steps|
  {
    if steps != [] {
      StepKeepsInv(s, steps[0]);
      RunKeepsInv(Apply(s, steps[0]), steps[1..], s');
    }
  }

  // ----- What the queue promises -----

  /** In every run: messages come out in the order in which they went in, the capacity is never exceeded, no removal
      meets an empty list, and neither semaphore's limit swallows a unit. */
  lemma QueueIsCorrect(s: State, steps: seq<Step>, s': State)
    requires IsStart(s) && Run(s, steps, s')
    ensures Texts(s'.puts) == s'.gots + s'.list && |s'.list| <= s.space.limit
    ensures s'.emptyRemovals == 0 && s'.unitsLost == 0
    ensures |s'.list| == s'.elems.units + Count(s'.pcs, IsGetGranted)
    ensures s'.space.units + Count(s'.pcs, IsPutGranted) + |s'.list| == s.space.limit
  {
    StartInv(s);
    RunKeepsInv(s, steps, s');
  }

  /** A get is complete at once exactly when there are more messages than getters that have been granted one, and a
      granted one always finds its message. */
  lemma GetCompletesExactly(s: State, steps: seq<Step>, s': State, t: nat)
    requires IsStart(s) && Run(s, steps, s') && t < |s'.pcs|
    ensures s'.pcs[t] == Idle ==>
              Apply(s', GetStart(t)).gots ==
                s'.gots + if |s'.list| > Count(s'.pcs, IsGetGranted) then [s'.list[0]] else []
    ensures s'.pcs[t] == GetGranted ==> s'.list != [] && Apply(s', GetResume(t)).gots == s'.gots + [s'.list[0]]
  {
    StartInv(s);
    RunKeepsInv(s, steps, s');
    CountNone(s'.pcs, IsGetGranted);
  }

  /** A put is complete at once exactly when there is room beside the messages and the putters that have been granted
      it, and a granted one always stores its own message. */
  lemma PutCompletesExactly(s: State, steps: seq<Step>, s': State, t: nat, msg: string)
    requires IsStart(s) && Run(s, steps, s') && t < |s'.pcs|
    ensures s'.pcs[t] == Idle ==>
              Apply(s', PutStart(t, msg)).list ==
                s'.list + if |s'.list| + Count(s'.pcs, IsPutGranted) < s.space.limit then [Stored(msg)] else []
    ensures s'.pcs[t].PutGranted? ==> Apply(s', PutResume(t)).list == s'.list + [Stored(s'.pcs[t].msg)]
  {
    StartInv(s);
    RunKeepsInv(s, steps, s');
  }

  /** A thread that has, or could take, the unit for its put or get never posts to a semaphore at its limit. */
  lemma NoUnitIsLost(s: State, steps: seq<Step>, s': State, t: nat)
    requires IsStart(s) && Run(s, steps, s') && t < |s'.pcs|
    ensures s'.pcs[t].PutGranted? || s'.space.units > 0 ==> Semaphore.Clamped(s'.elems, 1) == s'.elems.units + 1
    ensures s'.pcs[t] == GetGranted || s'.elems.units > 0 ==> Semaphore.Clamped(s'.space, 1) == s'.space.units + 1
  {
    StartInv(s);
    RunKeepsInv(s, steps, s');
    CountNone(s'.pcs, IsPutGranted);
    CountNone(s'.pcs, IsGetGranted);
  }

  // ----- Who has sent what -----

  /** The texts that thread `t` has stored. */
  function StoredBy(sent: seq<Sent>, t: nat): seq<string> {
    if sent == [] then []
    else StoredBy(sent[..|sent| - 1], t) + if sent[|sent| - 1].t == t then [sent[|sent| - 1].text] else []
  }

  function CalledIn(step: Step, t: nat): seq<string> {
    if step.PutStart? && step.t == t then [step.msg] else []
  }

  /** The texts with which thread `t` has called `queue_put`. */
  function CalledBy(steps: seq<Step>, t: nat): seq<string> {
    if steps == [] then [] else CalledIn(steps[0], t) + CalledBy(steps[1..], t)
  }

  /** What a thread will store once it has space. */
  function Carried(pc: Pc): seq<string> {
    match pc
    case PutWaiting(msg) => [Stored(msg)]
    case PutGranted(msg) => [Stored(msg)]
    case _ => []
  }

  /** What thread `t` has stored, and what it is going to. */
  function SentBy(s: State, t: nat): seq<string>
    requires t < |s.pcs|
  {
    StoredBy(s.puts, t) + Carried(s.pcs[t])
  }

  lemma PutIsStoredBy(puts: seq<Sent>, u: nat, text: string, t: nat)
    ensures StoredBy(puts + [Sent(u, text)], t) == StoredBy(puts, t) + if u == t then [text] else []
  {
    assert (puts + [Sent(u, text)])[..|puts|] == puts;
  }

  lemma GrantKeepsCarried(pcs: seq<Pc>, woken: seq<Waiter>, t: nat)
    requires t < |pcs|
    ensures Carried(Grant(pcs, woken)[t]) == Carried(pcs[t])
  {
  }

  lemma FinishPutSends(s: State, u: nat, msg: string, t: nat)
    requires u < |s.pcs| && t < |s.pcs|
    ensures |FinishPut(s, u, msg).pcs| == |s.pcs|
    ensures SentBy(FinishPut(s, u, msg), t)
         == StoredBy(s.puts, t) + if t == u then [Stored(msg)] else Carried(s.pcs[t])
  {
    PutIsStoredBy(s.puts, u, Stored(msg), t);
    GrantKeepsCarried(s.pcs[u := Idle], Semaphore.Woken(s.elems, 1), t);
  }

  lemma FinishGetSends(s: State, u: nat, t: nat)
    requires u < |s.pcs| && t < |s.pcs| && Carried(s.pcs[u]) == []
    ensures |FinishGet(s, u).pcs| == |s.pcs|
    ensures SentBy(FinishGet(s, u), t) == SentBy(s, t)
  {
    GrantKeepsCarried(s.pcs[u := Idle], Semaphore.Woken(s.space, 1), t);
  }

  lemma PutStartSends(s: State, u: nat, msg: string, t: nat)
    requires Enabled(s, PutStart(u, msg)) && t < |s.pcs|
    ensures |Apply(s, PutStart(u, msg)).pcs| == |s.pcs|
    ensures SentBy(Apply(s, PutStart(u, msg)), t) == SentBy(s, t) + if t == u then [Stored(msg)] else []
  {
    if !Semaphore.MustBlock(s.space, 1) {
      FinishPutSends(s.(space := Semaphore.AfterWait(s.space, u, 1)), u, msg, t);
    }
  }

  lemma OtherStepSends(s: State, step: Step, t: nat)
    requires Enabled(s, step) && t < |s.pcs| && !step.PutStart?
    ensures |Apply(s, step).pcs| == |s.pcs|
    ensures SentBy(Apply(s, step), t) == SentBy(s, t)
  {
    match step
    case PutResume(u) => FinishPutSends(s, u, s.pcs[u].msg, t);
    case GetStart(u) =>
      if !Semaphore.MustBlock(s.elems, 1) {
        FinishGetSends(s.(elems := Semaphore.AfterWait(s.elems, u, 1)), u, t);
      }
    case GetResume(u) => FinishGetSends(s, u, t);
  }

  lemma StepSends(s: State, step: Step, t: nat)
    requires Enabled(s, step) && t < |s.pcs|
    ensures |Apply(s, step).pcs| == |s.pcs|
    ensures SentBy(Apply(s, step), t) == SentBy(s, t) + Map(CalledIn(step, t), Stored)
  {
    if step.PutStart? {
      PutStartSends(s, step.t, step.msg, t);
    } else {
      OtherStepSends(s, step, t);
    }
  }

  /** In every run: what a thread has stored, then what it carries into its wait, is in order what it has called
      `queue_put` with, each text cut to what a node holds. */
  lemma {:induction false} SendersAreFaithful(s: State, steps: seq<Step>, s': State, t: nat)
    requires Run(s, steps, s') && t < |s.pcs|
    ensures |s'.pcs| == |s.pcs|
    ensures SentBy(s', t) == SentBy(s, t) + Map(CalledBy(steps, t), Stored)
    decreases |steps|
  {
    if steps != [] {
      StepSends(s, steps[0], t);
      SendersAreFaithful(Apply(s, steps[0]), steps[1..], s', t);
      MapsJoin(CalledIn(steps[0], t), CalledBy(steps[1..], t));
      JoinIsAssociative(SentBy(s, t), Map(CalledIn(steps[0], t), Stored), Map(CalledBy(steps[1..], t), Stored));
    }
  }

  lemma JoinIsAssociative(a: seq<string>, b: seq<string>, c: seq<string>)
    ensures a + b + c == a + (b + c)
  {
  }

  lemma MapsJoin(a: seq<string>, b: seq<string>)
    ensures Map(a + b, Stored) == Map(a, Stored) + Map(b, Stored)
  {
  }

  /** No thread holds a grant it has yet to use. */
  predicate Quiet(s: State) {
    forall t :: 0 <= t < |s.pcs| ==> !s.pcs[t].PutGranted? && s.pcs[t] != GetGranted
  }

  predicate Deadlocked(s: State) {
    Quiet(s) && (exists t :: 0 <= t < |s.pcs| && s.pcs[t].PutWaiting?) && GetWaiting in s.pcs
  }

  /** Senders and receivers can be stuck together exactly when the queue has no room at all. */
  lemma DeadlockExactlyWithoutRoom(s: State)
    requires IsStart(s) && |s.pcs| >= 2
    ensures (exists steps, s' :: Run(s, steps, s') && Deadlocked(s')) <==> s.space.limit == 0
  {
    if s.space.limit == 0 {
      var steps, s' := ReachDeadlock(s);
      assert Run(s, steps, s') && Deadlocked(s');
      assert exists steps, s' :: Run(s, steps, s') && Deadlocked(s');
    } else {
      forall steps, s' | Run(s, steps, s')
        ensures !Deadlocked(s')
      {
        StartInv(s);
        RunKeepsInv(s, steps, s');
        if Deadlocked(s') {
          NobodyStuckTogether(s');
        }
      }
    }
  }

  lemma ReachDeadlock(s: State) returns (steps: seq<Step>, s': State)
    requires IsStart(s) && |s.pcs| >= 2 && s.space.limit == 0
    ensures Run(s, steps, s') && Deadlocked(s')
  {
    steps := [PutStart(0, ""), GetStart(1)];
    var s1 := Apply(s, steps[0]);
    s' := Apply(s1, steps[1]);
    assert s'.pcs[0] == PutWaiting("") && s'.pcs[1] == GetWaiting;
    assert steps[1..][1..] == [] && Run(s1, steps[1..], s');
  }

  lemma NobodyStuckTogether(s: State)
    requires Inv(s) && Deadlocked(s)
    ensures s.space.limit == 0
  {
    CountNone(s.pcs, IsGetGranted);
    CountNone(s.pcs, IsPutGranted);
    var t :| 0 <= t < |s.pcs| && s.pcs[t].PutWaiting?;
    assert t in Semaphore.Threads(s.space.waiters);
    var u :| 0 <= u < |s.pcs| && s.pcs[u] == GetWaiting;
    assert u in Semaphore.Threads(s.elems.waiters);
  }
}
