/** Many stacks in one memory implement private contexts: the assembly routines refine a machine in which every thread
    owns its callee-saved registers, its return point and its stack. */
module PrivateContexts {
  import opened ContextSwitch

  /** The memory block [lo, hi) that holds a thread's stack; stacks grow down from `hi`. */
  datatype Region = Region(lo: nat, hi: nat)

  /** The processor, and where the stacks of the live threads are, by descriptor address. */
  datatype System = System(cpu: Cpu, regions: map<nat, Region>)

  predicate Inside(a: nat, r: Region) {
    r.lo <= a < r.hi
  }

  /** Memory that is neither stack nor descriptor of a live thread. */
  predicate IsHeap(regions: map<nat, Region>, a: nat) {
    a !in regions && forall t :: t in regions ==> !Inside(a, regions[t])
  }

  predicate Apart(regions: map<nat, Region>, t: nat, r: Region) {
    && !Inside(t, r)
    && (forall u :: u in regions && u != t ==>
          && !Inside(u, r) && !Inside(t, regions[u])
          && (regions[u].hi <= r.lo || r.hi <= regions[u].lo))
  }

  /** Stacks and descriptors lie in memory and do not overlap. */
  ghost predicate Layout(regions: map<nat, Region>, size: nat) {
    forall t :: t in regions ==>
      t < size && regions[t].lo <= regions[t].hi <= size && Apart(regions, t, regions[t])
  }

  predicate FrameInside(mem: seq<Word>, t: nat, r: Region) {
    t < |mem| && r.lo <= mem[t] && mem[t] + 7 <= r.hi
  }

  /** The layout is sound, the stack pointer is in the running thread's stack, and every saved frame lies inside its
      thread's stack. */
  ghost predicate Wf(s: System) {
    && Layout(s.regions, |s.cpu.mem|)
    && s.cpu.running in s.regions
    && s.regions[s.cpu.running].lo <= s.cpu.rsp <= s.regions[s.cpu.running].hi
    && (forall t :: t in s.regions && t != s.cpu.running ==> FrameInside(s.cpu.mem, t, s.regions[t]))
  }

  // ----- The abstract machine -----

  /** A thread's own registers, the point where it is or will resume, and its live stack from the top. */
  datatype Thread = Thread(regs: Regs, rip: Word, stack: seq<Word>)

  datatype Abstract = Abstract(running: nat, threads: map<nat, Thread>)

  /** The context saved in a frame at `sp` of a stack that ends at `hi`. */
  function FrameView(mem: seq<Word>, sp: nat, hi: nat): Thread
    requires sp + 7 <= hi <= |mem|
  {
    Thread(LoadRegs(mem, sp), mem[sp + 6], mem[sp + 7..hi])
  }

  /** The context of thread `t` lies in memory. */
  predicate Readable(s: System, t: nat) {
    && t in s.regions && s.regions[t].hi <= |s.cpu.mem|
    && if t == s.cpu.running then s.cpu.rsp <= s.regions[t].hi
       else t < |s.cpu.mem| && s.cpu.mem[t] + 7 <= s.regions[t].hi
  }

  /** What registers and memory say of thread `t`. */
  function View(s: System, t: nat): Thread
    requires Readable(s, t)
  {
    if t == s.cpu.running then Thread(s.cpu.regs, s.cpu.rip, s.cpu.mem[s.cpu.rsp..s.regions[t].hi])
    else FrameView(s.cpu.mem, s.cpu.mem[t], s.regions[t].hi)
  }

  function Abs(s: System): Abstract
    requires Wf(s)
  {
    Abstract(s.cpu.running, map t | t in s.regions :: View(s, t))
  }

  // ----- Steps -----

  datatype Step =
    | Compute(regs: Regs, rip: Word)
    | PushStep(x: Word)
    | PopStep
    | Store(address: nat, x: Word)
    | Create(thread: nat, region: Region, pad: nat, func: Word)
    | Switch(next: nat, ret: Word)
    | Exit(next: nat, writes: seq<Write>)

  /** The running thread computes, pushes and pops within its stack, and writes into its own stack block, live part or
      not, and into the heap. A new thread's block and descriptor come from the heap; its first frame, with the
      entry point as return address, ends `pad` words below the end of the block. A switch needs room for the
      return address and six registers, and the call of `cleanup_thread` for what it writes below the frame of the
      next thread; besides that it writes to the heap, which by then includes the memory of the thread that exits. */
  ghost predicate Enabled(s: System, step: Step)
    requires Wf(s)
  {
    var own := s.regions[s.cpu.running];
    match step
    case Compute(_, _) => true
    case PushStep(_) => own.lo < s.cpu.rsp
    case PopStep => s.cpu.rsp < own.hi
    case Store(a, _) => a < |s.cpu.mem| && (Inside(a, own) || IsHeap(s.regions, a))
    case Create(t, region, pad, _) =>
      && t < |s.cpu.mem| && IsHeap(s.regions, t)
      && region.lo + 7 + pad <= region.hi <= |s.cpu.mem|
      && Apart(s.regions, t, region)
    case Switch(next, _) => next in s.regions && own.lo + 7 <= s.cpu.rsp
    case Exit(next, writes) =>
      && next in s.regions && next != s.cpu.running && s.regions[next].lo < s.cpu.mem[next]
      && forall i :: 0 <= i < |writes| ==>
           var a := writes[i].address;
           a < |s.cpu.mem| && ((s.regions[next].lo <= a < s.cpu.mem[next]) || IsHeap(s.regions - {s.cpu.running}, a))
  }

  /** `context_switch` called with return address `ret`. */
  function CallSwitch(c: Cpu, next: nat, ret: Word): Cpu
    requires CanPush(c, 1) && SwitchFits(Push(c, ret), c.running, next)
  {
    SwitchSpec(Push(c, ret), c.running, next)
  }

  lemma SwitchIsSafe(s: System, next: nat, ret: Word)
    requires Wf(s) && Enabled(s, Switch(next, ret))
    ensures CanPush(s.cpu, 1) && SwitchFits(Push(s.cpu, ret), s.cpu.running, next)
    ensures var mem := Saved(Push(s.cpu, ret), s.cpu.running);
            && mem[s.cpu.running] == s.cpu.rsp - 7
            && (next != s.cpu.running ==> mem[next] == s.cpu.mem[next])
            && |mem| == |s.cpu.mem|
  {
    var own := s.regions[s.cpu.running];
    assert Apart(s.regions, s.cpu.running, own);
  }

  function Apply(s: System, step: Step): System
    requires Wf(s) && Enabled(s, step)
  {
    var c := s.cpu;
    match step
    case Compute(regs, rip) => s.(cpu := c.(regs := regs, rip := rip))
    case PushStep(x) => s.(cpu := Push(c, x))
    case PopStep => s.(cpu := c.(rsp := c.rsp + 1))
    case Store(a, x) => s.(cpu := c.(mem := c.mem[a := x]))
    case Create(t, region, pad, func) =>
      var sp := region.hi - pad - 7;
      System(c.(mem := FirstFrame(c.mem, t, sp, func)), s.regions[t := region])
    case Switch(next, ret) =>
      SwitchIsSafe(s, next, ret);
      s.(cpu := CallSwitch(c, next, ret))
    case Exit(next, writes) => System(ExitSpec(c, next, writes), s.regions - {c.running})
  }

  // ----- What a step means to the abstract machine -----

  datatype AbstractStep =
    | Own(after: Thread)                 // the running thread changes its own context
    | Silent                             // a write that is in nobody's context
    | Born(thread: nat, first: Thread)
    | HandOver(next: nat, ret: Word)
    | Leave(next: nat)

  function ApplyAbstract(a: Abstract, step: AbstractStep): Abstract
    requires a.running in a.threads
  {
    match step
    case Own(after) => a.(threads := a.threads[a.running := after])
    case Silent => a
    case Born(t, first) => a.(threads := a.threads[t := first])
    case HandOver(next, ret) => Abstract(next, a.threads[a.running := a.threads[a.running].(rip := ret)])
    case Leave(next) => Abstract(next, a.threads - {a.running})
  }

  function Meaning(s: System, step: Step): AbstractStep
    requires Wf(s) && Enabled(s, step)
  {
    var me := View(s, s.cpu.running);
    match step
    case Compute(regs, rip) => Own(me.(regs := regs, rip := rip))
    case PushStep(x) => Own(me.(stack := [x] + me.stack))
    case PopStep => Own(me.(stack := me.stack[1..]))
    case Store(a, x) =>
      if s.cpu.rsp <= a < s.regions[s.cpu.running].hi then Own(me.(stack := me.stack[a - s.cpu.rsp := x])) else Silent
    case Create(t, region, pad, func) =>
      var sp := region.hi - pad - 7;
      Born(t, Thread(LoadRegs(s.cpu.mem, sp), func, s.cpu.mem[sp + 7..region.hi]))
    case Switch(next, ret) => HandOver(next, ret)
    case Exit(next, _) => Leave(next)
  }

  // ----- Refinement -----

  lemma FrameUnchanged(mem: seq<Word>, mem': seq<Word>, sp: nat, hi: nat)
    requires sp + 7 <= hi <= |mem| == |mem'|
    requires forall a :: sp <= a < hi ==> mem'[a] == mem[a]
    ensures FrameView(mem', sp, hi) == FrameView(mem, sp, hi)
  {
    assert mem'[sp + 7..hi] == mem[sp + 7..hi];
  }

  /** The memory after `context_switch(cur, _)` has saved its caller: a frame with the caller's context, its address
      in the descriptor, and nothing else changed. */
  lemma SavedMemory(c: Cpu, ret: Word, hi: nat)
    requires 7 <= c.rsp <= hi <= |c.mem| && c.running < |c.mem| && !(c.rsp - 7 <= c.running < hi)
    ensures var mem := Saved(Push(c, ret), c.running);
            && |mem| == |c.mem| && mem[c.running] == c.rsp - 7
            && (forall a :: 0 <= a < |mem| && a != c.running && !(c.rsp - 7 <= a < c.rsp) ==> mem[a] == c.mem[a])
            && FrameView(mem, c.rsp - 7, hi) == Thread(c.regs, ret, c.mem[c.rsp..hi])
  {
    var mem := Saved(Push(c, ret), c.running);
    assert mem[c.rsp..hi] == c.mem[c.rsp..hi];
  }

  /** Two live threads have separate stacks, and descriptors outside both. */
  lemma Separate(s: System, t: nat, u: nat)
    requires Wf(s) && t in s.regions && u in s.regions
    ensures !Inside(t, s.regions[u]) && !Inside(u, s.regions[t]) && !Inside(t, s.regions[t])
    ensures t != u ==> s.regions[u].hi <= s.regions[t].lo || s.regions[t].hi <= s.regions[u].lo
    ensures t < |s.cpu.mem| && s.regions[t].lo <= s.regions[t].hi <= |s.cpu.mem|
  {
    assert Apart(s.regions, t, s.regions[t]);
  }

  /** A suspended thread keeps its context as long as its descriptor and its stack from the saved frame up are not
      written. */
  lemma SuspendedKeepsContext(s: System, mem: seq<Word>, t: nat)
    requires Wf(s) && t in s.regions && t != s.cpu.running && |mem| == |s.cpu.mem|
    requires mem[t] == s.cpu.mem[t]
    requires forall a :: s.cpu.mem[t] <= a < s.regions[t].hi ==> mem[a] == s.cpu.mem[a]
    ensures mem[t] + 7 <= s.regions[t].hi && FrameView(mem, mem[t], s.regions[t].hi) == View(s, t)
  {
    FrameUnchanged(s.cpu.mem, mem, s.cpu.mem[t], s.regions[t].hi);
  }

  // ----- Steps of the running thread -----

  predicate MayWrite(s: System, a: nat)
    requires s.cpu.running in s.regions
  {
    Inside(a, s.regions[s.cpu.running]) || IsHeap(s.regions, a)
  }

  /** Whatever the running thread writes in its own block and in the heap, the others keep their contexts. */
  lemma OthersKeepContext(s: System, cpu: Cpu, t: nat)
    requires Wf(s) && t in s.regions && t != s.cpu.running && |cpu.mem| == |s.cpu.mem|
    requires forall a :: 0 <= a < |cpu.mem| && cpu.mem[a] != s.cpu.mem[a] ==> MayWrite(s, a)
    ensures FrameInside(cpu.mem, t, s.regions[t])
    ensures FrameView(cpu.mem, cpu.mem[t], s.regions[t].hi) == View(s, t)
  {
    Separate(s, t, s.cpu.running);
    assert !MayWrite(s, t);
    forall a | s.cpu.mem[t] <= a < s.regions[t].hi
      ensures cpu.mem[a] == s.cpu.mem[a]
    {
      assert Inside(a, s.regions[t]);
      assert !MayWrite(s, a);
    }
    SuspendedKeepsContext(s, cpu.mem, t);
  }

  lemma OwnStepIsWf(s: System, cpu: Cpu)
    requires Wf(s) && cpu.running == s.cpu.running && |cpu.mem| == |s.cpu.mem|
    requires s.regions[s.cpu.running].lo <= cpu.rsp <= s.regions[s.cpu.running].hi
    requires forall a :: 0 <= a < |cpu.mem| && cpu.mem[a] != s.cpu.mem[a] ==> MayWrite(s, a)
    ensures Wf(s.(cpu := cpu))
  {
    forall t | t in s.regions && t != s.cpu.running
      ensures FrameInside(cpu.mem, t, s.regions[t])
    {
      OthersKeepContext(s, cpu, t);
    }
  }

  /** Abs(s') is known once it is known thread by thread. */
  lemma AbsByThread(s': System, a: Abstract)
    requires Wf(s') && a.running == s'.cpu.running && a.threads.Keys == s'.regions.Keys
    requires forall t :: t in s'.regions ==> View(s', t) == a.threads[t]
    ensures Abs(s') == a
  {
    assert Abs(s').threads == a.threads;
  }

  /** The state of the abstract machine after a step. */
  function After(s: System, step: Step): Abstract
    requires Wf(s) && Enabled(s, step)
  {
    ApplyAbstract(Abs(s), Meaning(s, step))
  }

  lemma AbsAt(s: System, u: nat)
    requires Wf(s)
    ensures Abs(s).threads.Keys == s.regions.Keys
    ensures u in s.regions ==> Abs(s).threads[u] == View(s, u)
  {
  }

  /** The abstract threads after a creation, a switch and an exit, one by one. */
  lemma BornThreads(a: Abstract, t: nat, first: Thread, u: nat)
    requires a.running in a.threads
    ensures var a' := ApplyAbstract(a, Born(t, first));
            && a'.running == a.running && a'.threads.Keys == a.threads.Keys + {t} && a'.threads[t] == first
            && (u in a.threads && u != t ==> a'.threads[u] == a.threads[u])
  {
  }

  lemma HandOverThreads(a: Abstract, next: nat, ret: Word, u: nat)
    requires a.running in a.threads
    ensures var a' := ApplyAbstract(a, HandOver(next, ret));
            && a'.running == next && a'.threads.Keys == a.threads.Keys
            && (u in a.threads ==>
                  a'.threads[u] == if u == a.running then a.threads[u].(rip := ret) else a.threads[u])
  {
  }

  lemma LeaveThreads(a: Abstract, next: nat, u: nat)
    requires a.running in a.threads
    ensures var a' := ApplyAbstract(a, Leave(next));
            && a'.running == next && a'.threads.Keys == a.threads.Keys - {a.running}
            && (u in a.threads && u != a.running ==> a'.threads[u] == a.threads[u])
  {
  }

  /** The same for the states that the machine with one memory stands for. */
  lemma AfterCreate(s: System, step: Step, u: nat)
    requires Wf(s) && Enabled(s, step) && step.Create?
    ensures After(s, step).running == s.cpu.running
    ensures After(s, step).threads.Keys == s.regions.Keys + {step.thread}
    ensures After(s, step).threads[step.thread] == Meaning(s, step).first
    ensures u in s.regions && u != step.thread ==> After(s, step).threads[u] == View(s, u)
  {
    AbsAt(s, u);
    BornThreads(Abs(s), step.thread, Meaning(s, step).first, u);
  }

  lemma AfterSwitch(s: System, step: Step, u: nat)
    requires Wf(s) && Enabled(s, step) && step.Switch?
    ensures After(s, step).running == step.next
    ensures After(s, step).threads.Keys == s.regions.Keys
    ensures u in s.regions ==>
              After(s, step).threads[u] == if u == s.cpu.running then View(s, u).(rip := step.ret) else View(s, u)
  {
    AbsAt(s, u);
    HandOverThreads(Abs(s), step.next, step.ret, u);
  }

  lemma AfterExit(s: System, step: Step, u: nat)
    requires Wf(s) && Enabled(s, step) && step.Exit?
    ensures After(s, step).running == step.next
    ensures After(s, step).threads.Keys == s.regions.Keys - {s.cpu.running}
    ensures u in s.regions && u != s.cpu.running ==> After(s, step).threads[u] == View(s, u)
  {
    AbsAt(s, u);
    LeaveThreads(Abs(s), step.next, u);
  }

  lemma OwnStep(s: System, cpu: Cpu)
    requires Wf(s) && cpu.running == s.cpu.running && |cpu.mem| == |s.cpu.mem|
    requires s.regions[s.cpu.running].lo <= cpu.rsp <= s.regions[s.cpu.running].hi
    requires forall a :: 0 <= a < |cpu.mem| && cpu.mem[a] != s.cpu.mem[a] ==> MayWrite(s, a)
    ensures Wf(s.(cpu := cpu))
    ensures Abs(s.(cpu := cpu)) ==
              ApplyAbstract(Abs(s), Own(Thread(cpu.regs, cpu.rip, cpu.mem[cpu.rsp..s.regions[s.cpu.running].hi])))
  {
    var s' := s.(cpu := cpu);
    OwnStepIsWf(s, cpu);
    var after := Thread(cpu.regs, cpu.rip, cpu.mem[cpu.rsp..s.regions[s.cpu.running].hi]);
    var threads := Abs(s).threads[s.cpu.running := after];
    forall t | t in s'.regions
      ensures View(s', t) == threads[t]
    {
      if t != s.cpu.running {
        OthersKeepContext(s, cpu, t);
      }
    }
    AbsByThread(s', Abstract(s.cpu.running, threads));
  }

  /** The live stack after one of the running thread's own steps. */
  lemma OwnStack(s: System, step: Step)
    requires Wf(s) && Enabled(s, step)
    requires step.Compute? || step.PushStep? || step.PopStep? || step.Store?
    ensures var c, hi := Apply(s, step).cpu, s.regions[s.cpu.running].hi;
            && s.regions[s.cpu.running].lo <= c.rsp <= hi <= |c.mem| == |s.cpu.mem| && c.running == s.cpu.running
            && (forall a :: 0 <= a < |c.mem| && c.mem[a] != s.cpu.mem[a] ==> MayWrite(s, a))
            && Thread(c.regs, c.rip, c.mem[c.rsp..hi]) ==
                 if Meaning(s, step).Own? then Meaning(s, step).after else View(s, s.cpu.running)
  {
    Separate(s, s.cpu.running, s.cpu.running);
    var c, hi := s.cpu, s.regions[s.cpu.running].hi;
    var c' := Apply(s, step).cpu;
    match step
    case Compute(_, _) =>
    case PushStep(x) => assert c'.mem[c'.rsp..hi] == [x] + c.mem[c.rsp..hi];
    case PopStep => assert c'.mem[c'.rsp..hi] == c.mem[c.rsp..hi][1..];
    case Store(a, x) =>
      if c.rsp <= a < hi {
        assert c'.mem[c.rsp..hi] == c.mem[c.rsp..hi][a - c.rsp := x];
      } else {
        assert c'.mem[c.rsp..hi] == c.mem[c.rsp..hi];
      }
  }

  lemma OwnContextAgain(s: System)
    requires Wf(s)
    ensures ApplyAbstract(Abs(s), Own(View(s, s.cpu.running))) == Abs(s)
  {
    assert Abs(s).threads[s.cpu.running := View(s, s.cpu.running)] == Abs(s).threads;
  }

  lemma OwnStepRefines(s: System, step: Step)
    requires Wf(s) && Enabled(s, step)
    requires step.Compute? || step.PushStep? || step.PopStep? || step.Store?
    ensures Wf(Apply(s, step))
    ensures Abs(Apply(s, step)) == After(s, step)
  {
    OwnStack(s, step);
    OwnStep(s, Apply(s, step).cpu);
    OwnContextAgain(s);
    assert Apply(s, step) == s.(cpu := Apply(s, step).cpu);
  }

  // ----- A new thread -----

  lemma NewLayout(regions: map<nat, Region>, size: nat, t: nat, r: Region)
    requires Layout(regions, size) && t < size && IsHeap(regions, t)
    requires r.lo <= r.hi <= size && Apart(regions, t, r)
    ensures Layout(regions[t := r], size)
  {
    forall u | u in regions
      ensures Apart(regions[t := r], u, regions[u])
    {
      assert Apart(regions, u, regions[u]);
    }
  }

  /** The block and the descriptor of a new thread are nobody's stack. */
  lemma CreateKeepsContext(s: System, step: Step, u: nat)
    requires Wf(s) && Enabled(s, step) && step.Create? && u in s.regions
    ensures var mem := Apply(s, step).cpu.mem;
            && |mem| == |s.cpu.mem|
            && (u != s.cpu.running ==>
                  FrameInside(mem, u, s.regions[u]) && FrameView(mem, mem[u], s.regions[u].hi) == View(s, u))
            && s.regions[u].hi <= |mem|
            && (forall a: nat :: Inside(a, s.regions[u]) ==> mem[a] == s.cpu.mem[a])
  {
    Separate(s, u, u);
    var mem := Apply(s, step).cpu.mem;
    assert forall a: nat :: Inside(a, s.regions[u]) ==> mem[a] == s.cpu.mem[a];
    if u != s.cpu.running {
      SuspendedKeepsContext(s, mem, u);
    }
  }

  lemma CreateIsWf(s: System, step: Step)
    requires Wf(s) && Enabled(s, step) && step.Create?
    ensures Wf(Apply(s, step))
  {
    NewLayout(s.regions, |s.cpu.mem|, step.thread, step.region);
    forall u | u in s.regions && u != s.cpu.running
      ensures FrameInside(Apply(s, step).cpu.mem, u, s.regions[u])
    {
      CreateKeepsContext(s, step, u);
    }
  }

  lemma CreateRefines(s: System, step: Step)
    requires Wf(s) && Enabled(s, step) && step.Create?
    ensures Wf(Apply(s, step))
    ensures Abs(Apply(s, step)) == After(s, step)
  {
    CreateIsWf(s, step);
    var s', a := Apply(s, step), After(s, step);
    CreateKeepsThreads(s, step);
    forall u | u in s'.regions
      ensures View(s', u) == a.threads[u]
    {
      CreateView(s, step, u);
      AfterCreate(s, step, u);
    }
    AbsByThread(s', a);
  }

  lemma CreateKeepsThreads(s: System, step: Step)
    requires Wf(s) && Enabled(s, step) && step.Create?
    ensures After(s, step).running == Apply(s, step).cpu.running
    ensures After(s, step).threads.Keys == Apply(s, step).regions.Keys == s.regions.Keys + {step.thread}
  {
    AfterCreate(s, step, step.thread);
  }

  lemma SuspendedView(s: System, u: nat)
    requires u in s.regions && u != s.cpu.running
    requires FrameInside(s.cpu.mem, u, s.regions[u]) && s.regions[u].hi <= |s.cpu.mem|
    ensures Readable(s, u) && View(s, u) == FrameView(s.cpu.mem, s.cpu.mem[u], s.regions[u].hi)
  {
  }

  lemma CreateNewView(s: System, step: Step)
    requires Wf(s) && Enabled(s, step) && step.Create?
    ensures Readable(Apply(s, step), step.thread)
    ensures View(Apply(s, step), step.thread) == Meaning(s, step).first
  {
    NewFrame(s, step);
    SuspendedView(Apply(s, step), step.thread);
  }

  lemma CreateView(s: System, step: Step, u: nat)
    requires Wf(s) && Enabled(s, step) && step.Create? && u in Apply(s, step).regions
    ensures Readable(Apply(s, step), u)
    ensures View(Apply(s, step), u) == if u == step.thread then Meaning(s, step).first else View(s, u)
  {
    if u == step.thread {
      CreateNewView(s, step);
    } else if u == s.cpu.running {
      CreateKeepsOwn(s, step);
    } else {
      CreateKeepsContext(s, step, u);
      SuspendedView(Apply(s, step), u);
    }
  }

  lemma CreateKeepsOwn(s: System, step: Step)
    requires Wf(s) && Enabled(s, step) && step.Create?
    ensures Readable(Apply(s, step), s.cpu.running)
    ensures View(Apply(s, step), s.cpu.running) == View(s, s.cpu.running)
  {
    CreateKeepsContext(s, step, s.cpu.running);
    var c', hi := Apply(s, step).cpu, s.regions[s.cpu.running].hi;
    assert c'.mem[c'.rsp..hi] == s.cpu.mem[s.cpu.rsp..hi];
  }

  lemma NewFrame(s: System, step: Step)
    requires Wf(s) && Enabled(s, step) && step.Create?
    ensures var mem, sp := Apply(s, step).cpu.mem, step.region.hi - step.pad - 7;
            mem[step.thread] == sp && FrameView(mem, sp, step.region.hi) == Meaning(s, step).first
  {
    var mem, sp := Apply(s, step).cpu.mem, step.region.hi - step.pad - 7;
    assert mem[sp + 7..step.region.hi] == s.cpu.mem[sp + 7..step.region.hi];
  }

  // ----- Switching -----

  lemma SwitchSavesRunning(s: System, next: nat, ret: Word)
    requires Wf(s) && Enabled(s, Switch(next, ret))
    ensures CanPush(s.cpu, 7) && s.cpu.running < |s.cpu.mem|
    ensures var mem, hi := Saved(Push(s.cpu, ret), s.cpu.running), s.regions[s.cpu.running].hi;
            && |mem| == |s.cpu.mem| && mem[s.cpu.running] == s.cpu.rsp - 7
            && (forall a :: 0 <= a < |mem| && a != s.cpu.running && !(s.cpu.rsp - 7 <= a < s.cpu.rsp) ==>
                  mem[a] == s.cpu.mem[a])
            && FrameView(mem, s.cpu.rsp - 7, hi) == View(s, s.cpu.running).(rip := ret)
  {
    Separate(s, s.cpu.running, s.cpu.running);
    SavedMemory(s.cpu, ret, s.regions[s.cpu.running].hi);
  }

  /** What `context_switch` leaves in memory, thread by thread. */
  lemma SwitchKeepsContext(s: System, next: nat, ret: Word, u: nat)
    requires Wf(s) && Enabled(s, Switch(next, ret)) && u in s.regions
    ensures CanPush(s.cpu, 7) && s.cpu.running < |s.cpu.mem|
    ensures var mem := Saved(Push(s.cpu, ret), s.cpu.running);
            && |mem| == |s.cpu.mem| && FrameInside(mem, u, s.regions[u])
            && FrameView(mem, mem[u], s.regions[u].hi) ==
                 if u == s.cpu.running then View(s, u).(rip := ret) else View(s, u)
  {
    SwitchSavesRunning(s, next, ret);
    Separate(s, u, s.cpu.running);
    if u != s.cpu.running {
      SuspendedKeepsContext(s, Saved(Push(s.cpu, ret), s.cpu.running), u);
    }
  }

  lemma SwitchRefines(s: System, step: Step)
    requires Wf(s) && Enabled(s, step) && step.Switch?
    ensures Wf(Apply(s, step))
    ensures Abs(Apply(s, step)) == After(s, step)
  {
    SwitchIsWf(s, step);
    AfterSwitch(s, step, s.cpu.running);
    forall u | u in Apply(s, step).regions
      ensures u in After(s, step).threads && View(Apply(s, step), u) == After(s, step).threads[u]
    {
      SwitchView(s, step, u);
      AfterSwitch(s, step, u);
    }
    AbsByThread(Apply(s, step), After(s, step));
  }

  lemma SwitchView(s: System, step: Step, u: nat)
    requires Wf(s) && Enabled(s, step) && step.Switch? && u in s.regions
    ensures Readable(Apply(s, step), u)
    ensures View(Apply(s, step), u) == if u == s.cpu.running then View(s, u).(rip := step.ret) else View(s, u)
  {
    SwitchKeepsContext(s, step.next, step.ret, u);
    SwitchMachine(s, step);
    FrameInMemory(Saved(Push(s.cpu, step.ret), s.cpu.running), u, s.regions[u]);
  }

  lemma FrameInMemory(mem: seq<Word>, u: nat, r: Region)
    requires FrameInside(mem, u, r) && r.hi <= |mem|
    ensures mem[u] + 7 <= r.hi <= |mem|
    ensures FrameView(mem, mem[u], r.hi) == Thread(LoadRegs(mem, mem[u]), mem[mem[u] + 6], mem[mem[u] + 7..r.hi])
  {
  }

  lemma SwitchMachine(s: System, step: Step)
    requires Wf(s) && Enabled(s, step) && step.Switch?
    ensures CanPush(s.cpu, 7) && s.cpu.running < |s.cpu.mem| && step.next < |s.cpu.mem|
    ensures var mem := Saved(Push(s.cpu, step.ret), s.cpu.running);
            && mem[step.next] + 7 <= |mem|
            && Apply(s, step).regions == s.regions
            && Apply(s, step).cpu == Cpu(mem, mem[step.next] + 7, LoadRegs(mem, mem[step.next]),
                                         mem[mem[step.next] + 6], step.next)
  {
    SwitchIsSafe(s, step.next, step.ret);
  }

  lemma SwitchIsWf(s: System, step: Step)
    requires Wf(s) && Enabled(s, step) && step.Switch?
    ensures Wf(Apply(s, step))
  {
    var s' := Apply(s, step);
    forall u | u in s.regions
      ensures FrameInside(s'.cpu.mem, u, s.regions[u])
    {
      SwitchKeepsContext(s, step.next, step.ret, u);
    }
    SwitchKeepsContext(s, step.next, step.ret, step.next);
  }

  // ----- Exiting -----

  lemma FewerRegions(regions: map<nat, Region>, size: nat, t: nat)
    requires Layout(regions, size)
    ensures Layout(regions - {t}, size)
  {
    forall u | u in regions - {t}
      ensures Apart(regions - {t}, u, regions[u])
    {
      assert Apart(regions, u, regions[u]);
    }
  }

  /** The call of `cleanup_thread` and all it writes leave the frame of the next thread, and everybody else's, alone. */
  lemma ExitKeepsContext(s: System, step: Step, u: nat)
    requires Wf(s) && Enabled(s, step) && step.Exit? && u in s.regions && u != s.cpu.running
    ensures ExitFits(s.cpu, step.next, step.writes)
    ensures var mem := Written(s.cpu.mem[s.cpu.mem[step.next] - 1 := CLEANUP_RETURN], step.writes);
            && |mem| == |s.cpu.mem| && mem[u] == s.cpu.mem[u] && FrameInside(mem, u, s.regions[u])
            && FrameView(mem, mem[u], s.regions[u].hi) == View(s, u)
  {
    Separate(s, u, step.next);
    Separate(s, step.next, step.next);
    var called := s.cpu.mem[s.cpu.mem[step.next] - 1 := CLEANUP_RETURN];
    var mem := Written(called, step.writes);
    forall a | a == u || s.cpu.mem[u] <= a < s.regions[u].hi
      ensures mem[a] == s.cpu.mem[a]
    {
      assert u in s.regions - {s.cpu.running};
      NotWrittenAgain(called, step.writes, a);
    }
    SuspendedKeepsContext(s, mem, u);
  }

  lemma ExitIsWf(s: System, step: Step)
    requires Wf(s) && Enabled(s, step) && step.Exit?
    ensures Wf(Apply(s, step))
  {
    ExitKeepsContext(s, step, step.next);
    ExitMachine(s, step);
    FewerRegions(s.regions, |s.cpu.mem|, s.cpu.running);
    var s' := Apply(s, step);
    forall u | u in s'.regions
      ensures FrameInside(s'.cpu.mem, u, s'.regions[u])
    {
      ExitKeepsContext(s, step, u);
    }
    ExitStackPointer(s, step);
  }

  lemma ExitStackPointer(s: System, step: Step)
    requires Wf(s) && Enabled(s, step) && step.Exit?
    ensures s.regions[step.next].lo <= Apply(s, step).cpu.rsp <= s.regions[step.next].hi
    ensures Apply(s, step).cpu.running == step.next && |Apply(s, step).cpu.mem| == |s.cpu.mem|
  {
    ExitKeepsContext(s, step, step.next);
    ExitMachine(s, step);
  }

  lemma ExitRefines(s: System, step: Step)
    requires Wf(s) && Enabled(s, step) && step.Exit?
    ensures Wf(Apply(s, step))
    ensures Abs(Apply(s, step)) == After(s, step)
  {
    ExitIsWf(s, step);
    AfterExit(s, step, s.cpu.running);
    forall u | u in Apply(s, step).regions
      ensures u in After(s, step).threads && View(Apply(s, step), u) == After(s, step).threads[u]
    {
      ExitView(s, step, u);
      AfterExit(s, step, u);
    }
    AbsByThread(Apply(s, step), After(s, step));
  }

  lemma ExitView(s: System, step: Step, u: nat)
    requires Wf(s) && Enabled(s, step) && step.Exit? && u in s.regions && u != s.cpu.running
    ensures Readable(Apply(s, step), u)
    ensures View(Apply(s, step), u) == View(s, u)
  {
    ExitKeepsContext(s, step, u);
    ExitMachine(s, step);
    FrameInMemory(Apply(s, step).cpu.mem, u, s.regions[u]);
    if u == step.next {
      Dispatched(Apply(s, step), s.cpu.mem[u]);
    }
  }

  /** A frame that has just been popped is the context of the thread that runs. */
  lemma Dispatched(s: System, sp: nat)
    requires s.cpu.running in s.regions && sp + 7 <= s.regions[s.cpu.running].hi <= |s.cpu.mem|
    requires s.cpu.rsp == sp + 7 && s.cpu.regs == LoadRegs(s.cpu.mem, sp) && s.cpu.rip == s.cpu.mem[sp + 6]
    ensures View(s, s.cpu.running) == FrameView(s.cpu.mem, sp, s.regions[s.cpu.running].hi)
  {
  }

  lemma ExitMachine(s: System, step: Step)
    requires Wf(s) && Enabled(s, step) && step.Exit? && ExitFits(s.cpu, step.next, step.writes)
    ensures var s', mem := Apply(s, step), Written(s.cpu.mem[s.cpu.mem[step.next] - 1 := CLEANUP_RETURN], step.writes);
            && s'.regions == s.regions - {s.cpu.running}
            && s'.cpu == Cpu(mem, s.cpu.mem[step.next] + 7, LoadRegs(mem, s.cpu.mem[step.next]),
                             mem[s.cpu.mem[step.next] + 6], step.next)
  {
  }

  /** Every step of the machine with one memory is the corresponding step of the machine with private contexts. */
  lemma StepRefines(s: System, step: Step)
    requires Wf(s) && Enabled(s, step)
    ensures Wf(Apply(s, step))
    ensures Abs(Apply(s, step)) == After(s, step)
  {
    match step
    case Create(_, _, _, _) => CreateRefines(s, step);
    case Switch(_, _) => SwitchRefines(s, step);
    case Exit(_, _) => ExitRefines(s, step);
    case _ => OwnStepRefines(s, step);
  }

  // ----- Runs -----

  /** A run, step by step, of the machine with one memory. */
  ghost predicate Run(s: System, steps: seq<Step>, s': System)
    requires Wf(s)
    decreases |steps|
  {
    if steps == [] then s == s'
    else
      && Enabled(s, steps[0])
      && (StepRefines(s, steps[0]); Run(Apply(s, steps[0]), steps[1..], s'))
  }

  ghost predicate AbstractRun(a: Abstract, steps: seq<AbstractStep>, a': Abstract)
    decreases |steps|
  {
    if steps == [] then a == a'
    else a.running in a.threads && AbstractRun(ApplyAbstract(a, steps[0]), steps[1..], a')
  }

  /** The abstract steps of a run. */
  ghost function Meanings(s: System, steps: seq<Step>): seq<AbstractStep>
    requires Wf(s)
    decreases |steps|
  {
    if steps == [] || !Enabled(s, steps[0]) then []
    else
      StepRefines(s, steps[0]);
      [Meaning(s, steps[0])] + Meanings(Apply(s, steps[0]), steps[1..])
  }

  /** Every run of the machine with one memory is a run of the machine with private contexts. */
  lemma {:induction false} RunRefines(s: System, steps: seq<Step>, s': System)
    requires Wf(s) && Run(s, steps, s')
    ensures Wf(s') && AbstractRun(Abs(s), Meanings(s, steps), Abs(s'))
    decreases |steps|
  {
    if steps != [] {
      StepRefines(s, steps[0]);
      RunRefines(Apply(s, steps[0]), steps[1..], s');
      AbsAt(s, s.cpu.running);
      AbstractRunStep(Abs(s), Meaning(s, steps[0]), Meanings(Apply(s, steps[0]), steps[1..]), Abs(s'));
    }
  }

  lemma AbstractRunStep(a: Abstract, step: AbstractStep, rest: seq<AbstractStep>, a': Abstract)
    requires a.running in a.threads && AbstractRun(ApplyAbstract(a, step), rest, a')
    ensures AbstractRun(a, [step] + rest, a')
  {
    assert ([step] + rest)[1..] == rest;
  }

  /** Thread `t` is not dispatched during the run; it may be at its end. */
  ghost predicate StaysOut(s: System, steps: seq<Step>, t: nat)
    requires Wf(s)
    decreases |steps|
  {
    steps != [] ==>
      && s.cpu.running != t
      && (Enabled(s, steps[0]) ==> (StepRefines(s, steps[0]); StaysOut(Apply(s, steps[0]), steps[1..], t)))
  }

  /** A step of another thread leaves thread `t` where and as it was. */
  lemma StepKeepsOthers(s: System, step: Step, t: nat)
    requires Wf(s) && Enabled(s, step) && t in s.regions && t != s.cpu.running
    ensures Wf(Apply(s, step)) && t in Apply(s, step).regions && Apply(s, step).regions[t] == s.regions[t]
    ensures View(Apply(s, step), t) == View(s, t)
  {
    StepRefines(s, step);
    StaysAlive(s, step, t);
    AfterForOthers(s, step, t);
  }

  lemma AfterForOthers(s: System, step: Step, t: nat)
    requires Wf(s) && Enabled(s, step) && t in s.regions && t != s.cpu.running
    ensures t in After(s, step).threads && After(s, step).threads[t] == View(s, t)
  {
    match step
    case Create(_, _, _, _) => AfterCreate(s, step, t);
    case Switch(_, _) => AfterSwitch(s, step, t);
    case Exit(_, _) => AfterExit(s, step, t);
    case _ => AbsAt(s, t);
  }

  lemma StaysAlive(s: System, step: Step, t: nat)
    requires Wf(s) && Enabled(s, step) && t in s.regions && t != s.cpu.running
    ensures t in Apply(s, step).regions && Apply(s, step).regions[t] == s.regions[t]
  {
  }

  lemma {:induction false} WaitsUnchanged(s: System, steps: seq<Step>, s': System, t: nat)
    requires Wf(s) && t in s.regions && Run(s, steps, s') && StaysOut(s, steps, t)
    ensures Wf(s') && t in s'.regions && s'.regions[t] == s.regions[t] && View(s', t) == View(s, t)
    decreases |steps|
  {
    if steps != [] {
      StepKeepsOthers(s, steps[0], t);
      WaitsUnchanged(Apply(s, steps[0]), steps[1..], s', t);
    }
  }

  /** A thread that switches out finds, when it is next dispatched, its registers, its stack depth, its stack and the
      point to return to exactly as they were, whatever the others did meanwhile: switches, exits, new threads,
      writes anywhere in their own blocks and in the heap. */
  lemma ResumedExactly(s: System, next: nat, ret: Word, steps: seq<Step>, s': System)
    requires Wf(s) && Enabled(s, Switch(next, ret))
    requires Wf(Apply(s, Switch(next, ret)))
    requires Run(Apply(s, Switch(next, ret)), steps, s') && StaysOut(Apply(s, Switch(next, ret)), steps, s.cpu.running)
    requires s'.cpu.running == s.cpu.running
    ensures s.cpu.running in s'.regions && s'.regions[s.cpu.running] == s.regions[s.cpu.running]
    ensures s'.cpu.regs == s.cpu.regs && s'.cpu.rip == ret && s'.cpu.rsp == s.cpu.rsp
    ensures var hi := s.regions[s.cpu.running].hi;
            hi <= |s'.cpu.mem| && hi <= |s.cpu.mem| && s'.cpu.mem[s'.cpu.rsp..hi] == s.cpu.mem[s.cpu.rsp..hi]
  {
    var t := s.cpu.running;
    var out := Apply(s, Switch(next, ret));
    StepRefines(s, Switch(next, ret));
    assert Abs(out).threads[t] == View(s, t).(rip := ret);
    WaitsUnchanged(out, steps, s', t);
    assert View(s', t) == View(s, t).(rip := ret);
    SameDepth(s, s', t);
  }

  lemma SameDepth(s: System, s': System, t: nat)
    requires Wf(s) && Wf(s') && t == s.cpu.running == s'.cpu.running && s'.regions[t] == s.regions[t]
    requires View(s', t).stack == View(s, t).stack
    ensures s'.cpu.rsp == s.cpu.rsp
  {
    Separate(s, t, t);
    Separate(s', t, t);
    assert |View(s', t).stack| == s.regions[t].hi - s'.cpu.rsp;
  }

  lemma RunOneStep(s: System, step: Step)
    requires Wf(s) && Enabled(s, step) && Wf(Apply(s, step))
    ensures Run(s, [step], Apply(s, step))
  {
    assert [step][1..] == [];
  }

  /** The thread that has just been switched to can always switch back, and then the first one goes on as if nothing
      had happened. */
  lemma SwitchThereAndBack(s: System, next: nat, ret: Word, back: Word)
    requires Wf(s) && Enabled(s, Switch(next, ret)) && next != s.cpu.running
    ensures Wf(Apply(s, Switch(next, ret))) && Enabled(Apply(s, Switch(next, ret)), Switch(s.cpu.running, back))
    ensures var s' := Apply(Apply(s, Switch(next, ret)), Switch(s.cpu.running, back));
            s'.cpu.running == s.cpu.running && s'.cpu.regs == s.cpu.regs && s'.cpu.rip == ret && s'.cpu.rsp == s.cpu.rsp
  {
    var out := Apply(s, Switch(next, ret));
    StepRefines(s, Switch(next, ret));
    JustDispatched(s, next, ret);
    var step := Switch(s.cpu.running, back);
    var s' := Apply(out, step);
    StepRefines(out, step);
    JustDispatched(out, s.cpu.running, back);
    RunOneStep(out, step);
    assert StaysOut(s', [], s.cpu.running);
    ResumedExactly(s, next, ret, [step], s');
  }

  /** A thread that has popped its frame has room to push it again. */
  lemma JustDispatched(s: System, next: nat, ret: Word)
    requires Wf(s) && Enabled(s, Switch(next, ret))
    ensures var s' := Apply(s, Switch(next, ret));
            s'.regions == s.regions && s'.cpu.running == next && s.regions[next].lo + 7 <= s'.cpu.rsp
  {
    SwitchMachine(s, Switch(next, ret));
    SwitchKeepsContext(s, next, ret, next);
  }

  lemma CreateThenSwitch(s: System, step: Step, ret: Word)
    requires Wf(s) && Enabled(s, step) && step.Create?
    requires s.regions[s.cpu.running].lo + 7 <= s.cpu.rsp
    ensures Wf(Apply(s, step)) && Enabled(Apply(s, step), Switch(step.thread, ret))
    ensures step.thread != s.cpu.running && s.cpu.running in Apply(s, step).regions
    ensures Apply(s, step).cpu.mem[step.thread] == step.region.hi - step.pad - 7
  {
    CreateIsWf(s, step);
    NewFrame(s, step);
  }

  /** A thread that has just been created starts, when it is first switched to, at its entry point, with nothing on its
      stack but the words its creator has left above the frame. */
  lemma NewThreadStartsAtEntry(s: System, step: Step, ret: Word)
    requires Wf(s) && Enabled(s, step) && step.Create?
    requires s.regions[s.cpu.running].lo + 7 <= s.cpu.rsp
    ensures Wf(Apply(s, step)) && Enabled(Apply(s, step), Switch(step.thread, ret))
    ensures var s' := Apply(Apply(s, step), Switch(step.thread, ret));
            s'.cpu.running == step.thread && s'.cpu.rip == step.func && s'.cpu.rsp == step.region.hi - step.pad
  {
    CreateThenSwitch(s, step, ret);
    var born := Apply(s, step);
    CreateNewView(s, step);
    var s' := Apply(born, Switch(step.thread, ret));
    SwitchView(born, Switch(step.thread, ret), step.thread);
    SwitchMachine(born, Switch(step.thread, ret));
    assert View(s', step.thread).rip == step.func;
    SwitchIsSafe(born, step.thread, ret);
  }

  lemma SavedPointer(s: System, next: nat, ret: Word)
    requires Wf(s) && Enabled(s, Switch(next, ret)) && next != s.cpu.running
    ensures s.cpu.running < |Apply(s, Switch(next, ret)).cpu.mem|
    ensures Apply(s, Switch(next, ret)).cpu.mem[s.cpu.running] == s.cpu.rsp - 7
  {
    SwitchIsSafe(s, next, ret);
    SwitchMachine(s, Switch(next, ret));
  }

  /** The thread that has just been switched to can also exit to the first one, if that has a word to spare for the
      call of `cleanup_thread`; it is gone then, and the first one goes on as if nothing had happened. */
  lemma SwitchThereAndExit(s: System, next: nat, ret: Word)
    requires Wf(s) && Enabled(s, Switch(next, ret)) && next != s.cpu.running
    requires s.regions[s.cpu.running].lo + 8 <= s.cpu.rsp
    ensures Wf(Apply(s, Switch(next, ret))) && Enabled(Apply(s, Switch(next, ret)), Exit(s.cpu.running, []))
    ensures var s' := Apply(Apply(s, Switch(next, ret)), Exit(s.cpu.running, []));
            && s'.regions == s.regions - {next}
            && s'.cpu.running == s.cpu.running && s'.cpu.regs == s.cpu.regs
            && s'.cpu.rip == ret && s'.cpu.rsp == s.cpu.rsp
  {
    var out := Apply(s, Switch(next, ret));
    StepRefines(s, Switch(next, ret));
    JustDispatched(s, next, ret);
    SavedPointer(s, next, ret);
    var step := Exit(s.cpu.running, []);
    var s' := Apply(out, step);
    StepRefines(out, step);
    ExitStackPointer(out, step);
    RunOneStep(out, step);
    assert StaysOut(s', [], s.cpu.running);
    ResumedExactly(s, next, ret, [step], s');
  }
}
