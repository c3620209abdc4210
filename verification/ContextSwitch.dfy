/** The context switch: pushes and pops on per-thread stacks in one shared memory, and the machine it implements, in
    which every thread owns its registers, its return point and its stack. Memory is addressed in 64-bit words. */
module ContextSwitch {

  type Word = nat

  /** The registers a callee must preserve. */
  datatype Regs = Regs(rbp: Word, rbx: Word, r12: Word, r13: Word, r14: Word, r15: Word)

  /** `running` is the address of the running thread's descriptor, whose first word holds its saved stack pointer. */
  datatype Cpu = Cpu(mem: seq<Word>, rsp: nat, regs: Regs, rip: Word, running: nat)

  // ----- The two assembly routines -----

  predicate CanPush(c: Cpu, words: nat) {
    words <= c.rsp <= |c.mem|
  }

  function Push(c: Cpu, x: Word): Cpu
    requires CanPush(c, 1)
  {
    c.(mem := c.mem[c.rsp - 1 := x], rsp := c.rsp - 1)
  }

  /** The six registers as they lie on a stack whose pointer was `sp`. */
  function SaveRegs(mem: seq<Word>, sp: nat, regs: Regs): seq<Word>
    requires 6 <= sp <= |mem|
  {
    mem[sp - 1 := regs.rbp][sp - 2 := regs.rbx][sp - 3 := regs.r12]
       [sp - 4 := regs.r13][sp - 5 := regs.r14][sp - 6 := regs.r15]
  }

  function LoadRegs(mem: seq<Word>, sp: nat): Regs
    requires sp + 6 <= |mem|
  {
    Regs(mem[sp + 5], mem[sp + 4], mem[sp + 3], mem[sp + 2], mem[sp + 1], mem[sp])
  }

  /** Popping the six registers and the return address at `sp`. */
  function Resume(c: Cpu, sp: nat): Cpu
    requires sp + 7 <= |c.mem|
  {
    c.(regs := LoadRegs(c.mem, sp), rip := c.mem[sp + 6], rsp := sp + 7)
  }

  /** The memory after `context_switch` has saved the thread `cur`. */
  function Saved(c: Cpu, cur: nat): seq<Word>
    requires CanPush(c, 6) && cur < |c.mem|
  {
    SaveRegs(c.mem, c.rsp, c.regs)[cur := c.rsp - 6]
  }

  /** The seven words of a saved context, from the stack pointer up, as the source's thread context has them. */
  lemma FrameLayout(c: Cpu, ret: Word, cur: nat)
    requires CanPush(c, 7) && cur < |c.mem| && !(c.rsp - 7 <= cur < c.rsp)
    ensures Saved(Push(c, ret), cur)[c.rsp - 7..c.rsp]
         == [c.regs.r15, c.regs.r14, c.regs.r13, c.regs.r12, c.regs.rbx, c.regs.rbp, ret]
  {
  }

  predicate SwitchFits(c: Cpu, cur: nat, next: nat) {
    && CanPush(c, 6) && cur < |c.mem| && next < |c.mem|
    && Saved(c, cur)[next] + 7 <= |c.mem|
  }

  /** `context_switch(cur, next)`, entered with the return address on top of the stack. */
  function SwitchSpec(c: Cpu, cur: nat, next: nat): Cpu
    requires SwitchFits(c, cur, next)
  {
    var mem := Saved(c, cur);
    Resume(c.(mem := mem, running := next), mem[next])
  }

  /** A write by `cleanup_thread`, to its own frames or to memory it has freed. */
  datatype Write = Write(address: nat, value: Word)

  predicate WritesFit(writes: seq<Write>, size: nat) {
    forall i :: 0 <= i < |writes| ==> writes[i].address < size
  }

  function Written(mem: seq<Word>, writes: seq<Write>): (mem': seq<Word>)
    requires WritesFit(writes, |mem|)
    ensures |mem'| == |mem|
    decreases |writes|
  {
    if writes == [] then mem else Written(mem[writes[0].address := writes[0].value], writes[1..])
  }

  /** What is written last at an address stays there. */
  lemma {:induction false} LastWriteStays(mem: seq<Word>, writes: seq<Write>, i: nat)
    requires WritesFit(writes, |mem|) && i < |writes|
    requires forall j :: i < j < |writes| ==> writes[j].address != writes[i].address
    ensures Written(mem, writes)[writes[i].address] == writes[i].value
    decreases |writes|
  {
    var mem' := mem[writes[0].address := writes[0].value];
    if i == 0 {
      NotWrittenAgain(mem', writes[1..], writes[0].address);
    } else {
      LastWriteStays(mem', writes[1..], i - 1);
    }
  }

  lemma {:induction false} NotWrittenAgain(mem: seq<Word>, writes: seq<Write>, a: nat)
    requires WritesFit(writes, |mem|) && a < |mem|
    requires forall i :: 0 <= i < |writes| ==> writes[i].address != a
    ensures Written(mem, writes)[a] == mem[a]
    decreases |writes|
  {
    if writes != [] {
      NotWrittenAgain(mem[writes[0].address := writes[0].value], writes[1..], a);
    }
  }

  predicate ExitFits(c: Cpu, next: nat, writes: seq<Write>) {
    && next < |c.mem| && 0 < c.mem[next] && c.mem[next] + 7 <= |c.mem|
    && WritesFit(writes, |c.mem|)
  }

  /** The return address that the call of `cleanup_thread` leaves on the next thread's stack. */
  const CLEANUP_RETURN: Word := 0x1000

  /** `internal_exit`: the stack of `next` is in use before its frame has been popped. */
  function ExitSpec(c: Cpu, next: nat, writes: seq<Write>): Cpu
    requires ExitFits(c, next, writes)
  {
    var sp := c.mem[next];
    Resume(c.(mem := Written(c.mem[sp - 1 := CLEANUP_RETURN], writes), running := next), sp)
  }

  /** Whatever `cleanup_thread` writes is in memory when the next thread resumes. */
  lemma CleanupTakesEffect(c: Cpu, next: nat, writes: seq<Write>, i: nat)
    requires ExitFits(c, next, writes) && i < |writes|
    requires forall j :: i < j < |writes| ==> writes[j].address != writes[i].address
    ensures ExitSpec(c, next, writes).mem[writes[i].address] == writes[i].value
  {
    LastWriteStays(c.mem[c.mem[next] - 1 := CLEANUP_RETURN], writes, i);
  }

  /** The first frame of a new thread, seven words at `sp`: only the return address, on top, is written. */
  function FirstFrame(mem: seq<Word>, t: nat, sp: nat, func: Word): seq<Word>
    requires t < |mem| && sp + 7 <= |mem|
  {
    mem[t := sp][sp + 6 := func]
  }

  /** The processor, executing the routines instruction by instruction. */
  class Machine {
    const mem: array<Word>
    var rsp: nat
    var rbp: Word
    var rbx: Word
    var r12: Word
    var r13: Word
    var r14: Word
    var r15: Word
    var rip: Word
    var runningThread: nat

    ghost function View(): Cpu
      reads this, mem
    {
      Cpu(mem[..], rsp, Regs(rbp, rbx, r12, r13, r14, r15), rip, runningThread)
    }

    constructor (size: nat)
      ensures |View().mem| == size
    {
      mem := new Word[size](_ => 0);
      rsp := 0;
      rbp, rbx, r12, r13, r14, r15 := 0, 0, 0, 0, 0, 0;
      rip, runningThread := 0, 0;
    }

    method PushWord(x: Word)
      requires CanPush(View(), 1)
      modifies this`rsp, mem
      ensures rsp == old(rsp) - 1 && mem[..] == old(mem[..])[rsp := x]
    {
      rsp := rsp - 1;
      mem[rsp] := x;
    }

    method PopWord() returns (x: Word)
      requires rsp < mem.Length
      modifies this`rsp
      ensures rsp == old(rsp) + 1 && x == mem[old(rsp)]
    {
      x := mem[rsp];
      rsp := rsp + 1;
    }

    /** The common tail of both routines. */
    method PopFrame()
      requires rsp + 7 <= mem.Length
      modifies this
      ensures View() == Resume(old(View()), old(rsp))
    {
      ghost var words, sp := mem[..], rsp;
      r15 := PopWord();
      r14 := PopWord();
      r13 := PopWord();
      assert r15 == words[sp] && r14 == words[sp + 1] && r13 == words[sp + 2];
      r12 := PopWord();
      rbx := PopWord();
      rbp := PopWord();
      rip := PopWord();
      assert mem[..] == words;
    }

    method PushRegisters()
      requires CanPush(View(), 6)
      modifies this`rsp, mem
      ensures View() == old(View()).(mem := SaveRegs(old(mem[..]), old(rsp), old(View()).regs), rsp := old(rsp) - 6)
    {
      PushWord(rbp);
      PushWord(rbx);
      PushWord(r12);
      PushWord(r13);
      PushWord(r14);
      PushWord(r15);
    }

    /** Prepares the context of the thread with descriptor `t`, whose stack ends at `end`. */
    method UtInit(t: nat, end: nat, func: Word)
      requires t < mem.Length && 7 <= end <= mem.Length && t != end - 1
      modifies mem
      ensures mem[..] == FirstFrame(old(mem[..]), t, end - 7, func)
      ensures mem[t] == end - 7 && mem[end - 1] == func
    {
      mem[t] := end - 7;
      mem[end - 1] := func;
    }

    method ContextSwitch(rdi: nat, rsi: nat)
      requires SwitchFits(View(), rdi, rsi)
      modifies this, mem
      ensures View() == SwitchSpec(old(View()), rdi, rsi)
    {
      PushRegisters();
      mem[rdi] := rsp;
      runningThread := rsi;
      rsp := mem[rsi];
      PopFrame();
    }

    /** `cleanup_thread` writes where it will and returns with the stack pointer it was entered with. */
    method CleanupThread(writes: seq<Write>)
      requires WritesFit(writes, mem.Length)
      modifies mem
      ensures mem[..] == Written(old(mem[..]), writes)
    {
      for i := 0 to |writes|
        invariant Written(old(mem[..]), writes) == Written(mem[..], writes[i..])
      {
        assert writes[i..][0] == writes[i] && writes[i..][1..] == writes[i + 1..];
        mem[writes[i].address] := writes[i].value;
      }
    }

    method InternalExit(rdi: nat, rsi: nat, writes: seq<Write>)
      requires ExitFits(View(), rsi, writes)
      modifies this, mem
      ensures View() == ExitSpec(old(View()), rsi, writes)
    {
      runningThread := rsi;
      rsp := mem[rsi];
      PushWord(CLEANUP_RETURN);
      CleanupThread(writes);
      rsp := rsp + 1;
      PopFrame();
    }
  }
}
