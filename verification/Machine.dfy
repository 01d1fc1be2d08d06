/**
  The run-time library the compiled code calls (lib/value.c), and a machine for the emitted
  instructions: ten registers, a stack, a heap of values, the output, and the call and return of
  main. Library calls follow the System V AMD64 ABI: they preserve %rbx, %rbp and %rsp, leave
  arbitrary values (junk) in the other registers and may overwrite the stack below %rsp.
*/
module Runtime {
  import opened Ast
  import opened Eval

  // print_val: the value and a line break.
  function PrintedItem(v: Val): Output {
    if v.VStr? then Text(v.s) else Shown(v) + [Ch('\n')]
  }

  function PrintedItems(vs: seq<Val>): Output {
    if vs == [] then []
    else PrintedItem(vs[0]) + if |vs| == 1 then [] else [Ch(' ')] + PrintedItems(vs[1..])
  }

  predicate AllStrings(vs: seq<Val>) { forall i :: 0 <= i < |vs| ==> vs[i].VStr? }

  // What one call of libblaze_fn_println writes.
  function RuntimePrintln(vs: seq<Val>): Output {
    PrintedItems(vs) + if AllStrings(vs) then [Ch('\n')] else []
  }

  lemma ItemsFrom(vs: seq<Val>, i: nat)
    requires i < |vs|
    ensures PrintedItems(vs[i..]) == PrintedItem(vs[i]) + if i == |vs| - 1 then [] else [Ch(' ')] + PrintedItems(vs[i + 1..])
  {
    hide PrintedItem;
    assert vs[i..][0] == vs[i] && vs[i..][1..] == vs[i + 1..];
  }

  // The loop of libblaze_fn_println over its variable arguments.
  method Println(vs: seq<Val>) returns (out: Output)
    ensures out == RuntimePrintln(vs)
  {
    hide PrintedItems, PrintedItem;
    out := [];
    assert [] + PrintedItems(vs) == PrintedItems(vs);
    var newline := true;
    assert vs[0..] == vs;
    for i := 0 to |vs|
      invariant newline <==> forall j :: 0 <= j < i ==> vs[j].VStr?
      invariant i < |vs| ==> PrintedItems(vs) == out + PrintedItems(vs[i..])
      invariant i == |vs| > 0 ==> PrintedItems(vs) == out
      invariant i == 0 ==> out == []
    {
      ItemsFrom(vs, i);
      ghost var before := out;
      var item := PutItem(vs[i]);
      out := out + item;
      if !vs[i].VStr? {
        newline := false;
      }
      if i != |vs| - 1 {
        out := out + [Ch(' ')];
        assert before + (item + ([Ch(' ')] + PrintedItems(vs[i + 1..]))) == out + PrintedItems(vs[i + 1..]);
      } else {
        assert item + [] == item;
      }
    }
    NoItems(vs);
    if newline {
      out := out + [Ch('\n')];
    }
  }

  lemma NoItems(vs: seq<Val>)
    ensures vs == [] ==> PrintedItems(vs) == []
  {
  }

  method PutItem(v: Val) returns (out: Output)
    ensures out == PrintedItem(v)
  {
    if v.VStr? {
      out := Text(v.s);
    } else {
      out := Shown(v) + [Ch('\n')];
    }
  }
}

module Machine {
  import opened Ast
  import opened Asm
  import opened Eval
  import opened Runtime

  datatype Word = Num(n: int) | Ptr(id: nat) | Addr(symbol: string) | Code(pc: nat)

  type Memory = map<int, Word>
  type Heap = map<nat, Val>
  type Data = map<string, string>

  // The value a register holds after the given library call.
  type Junk = (nat, Reg) -> Word

  // Freed lists the heap blocks in the order of their release; a block is named only once.
  datatype Mach = Mach(regs: map<Reg, Word>, mem: Memory, heap: Heap, next: nat, freed: seq<nat>, out: Output,
                       calls: nat, ok: bool)

  function Get(m: Mach, r: Reg): Word { if r in m.regs then m.regs[r] else Num(0) }

  function Set(m: Mach, r: Reg, w: Word): Mach { m.(regs := m.regs[r := w]) }

  function Fault(m: Mach): Mach { m.(ok := false) }

  function Load(o: Operand, data: Data, m: Mach): Option<Word> {
    match o
    case Imm(n) => Some(Num(n))
    case ImmLabel(l) => if l in data then Some(Addr(l)) else None
    case Register(r) => Some(Get(m, r))
    case Offset(d, r) => if Get(m, r).Num? && Get(m, r).n + d in m.mem then Some(m.mem[Get(m, r).n + d]) else None
  }

  // The stack cells a function may rely on.
  function Live(mem: Memory, rsp: int): Memory { map a | a in mem && a >= rsp :: mem[a] }

  // ----- library calls -----

  function Returned(m: Mach, rax: Word, junk: Junk): Mach
    requires Get(m, RSP).Num?
  {
    m.(regs := m.regs[RAX := rax][RCX := junk(m.calls, RCX)][RDX := junk(m.calls, RDX)][RDI := junk(m.calls, RDI)]
                     [RSI := junk(m.calls, RSI)][R8 := junk(m.calls, R8)][R9 := junk(m.calls, R9)],
       mem := Live(m.mem, Get(m, RSP).n),
       calls := m.calls + 1)
  }

  // Variable argument number i: in the registers after %rdi first, then on the stack.
  function VaArg(m: Mach, i: nat): Option<Word> {
    if i == 0 then Some(Get(m, RSI))
    else if i == 1 then Some(Get(m, RDX))
    else if i == 2 then Some(Get(m, RCX))
    else if i == 3 then Some(Get(m, R8))
    else if i == 4 then Some(Get(m, R9))
    else if Get(m, RSP).Num? && Get(m, RSP).n + 8 * (i - 5) in m.mem then Some(m.mem[Get(m, RSP).n + 8 * (i - 5)])
    else None
  }

  // The values of the first argc variable arguments; None unless all are live heap values.
  function VaValues(m: Mach, argc: nat): Option<seq<Val>> {
    if argc == 0 then Some([])
    else
      var init, last := VaValues(m, argc - 1), VaArg(m, argc - 1);
      if init.None? || last.None? || !last.value.Ptr? || last.value.id !in m.heap then None
      else Some(init.value + [m.heap[last.value.id]])
  }

  function Library(name: Symbol, data: Data, junk: Junk, m: Mach): Mach {
    var rdi := Get(m, RDI);
    if !Get(m, RSP).Num? then Fault(m)
    else if name == CreateInt && rdi.Num? then
      Returned(m.(heap := m.heap[m.next := VInt(rdi.n)], next := m.next + 1), Ptr(m.next), junk)
    else if name == CreateStr && rdi.Addr? && rdi.symbol in data then
      Returned(m.(heap := m.heap[m.next := VStr(CString(data[rdi.symbol]))], next := m.next + 1), Ptr(m.next), junk)
    else if name == PrintLine && rdi.Num? && rdi.n >= 0 && VaValues(m, rdi.n).Some? then
      Returned(m.(out := m.out + RuntimePrintln(VaValues(m, rdi.n).value)), junk(m.calls, RAX), junk)
    else if name == FreeVal && rdi.Ptr? && rdi.id in m.heap then
      Returned(m.(heap := m.heap - {rdi.id}, freed := m.freed + [rdi.id]), junk(m.calls, RAX), junk)
    else Fault(m)
  }

  // ----- straight-line code -----

  function RunInst(inst: Inst, data: Data, junk: Junk, m: Mach): Mach {
    if !m.ok then m
    else
      var rsp := Get(m, RSP);
      match inst
      case Mov(src, Register(r)) =>
        var w := Load(src, data, m);
        if w.Some? then Set(m, r, w.value) else Fault(m)
      case Add(Imm(n), Register(r)) =>
        if Get(m, r).Num? then Set(m, r, Num(Get(m, r).n + n)) else Fault(m)
      case Push(Register(r)) =>
        if rsp.Num? then Set(m.(mem := m.mem[rsp.n - 8 := Get(m, r)]), RSP, Num(rsp.n - 8)) else Fault(m)
      case Pop(Register(r)) =>
        if rsp.Num? && rsp.n in m.mem then Set(Set(m, RSP, Num(rsp.n + 8)), r, m.mem[rsp.n]) else Fault(m)
      case CallTo(name) => Library(name, data, junk, m)
      case _ => Fault(m)
  }

  function RunCode(code: seq<Inst>, data: Data, junk: Junk, m: Mach): Mach {
    if code == [] then m else RunInst(code[|code| - 1], data, junk, RunCode(code[..|code| - 1], data, junk, m))
  }

  lemma {:induction false} RunAppend(a: seq<Inst>, b: seq<Inst>, data: Data, junk: Junk, m: Mach)
    ensures RunCode(a + b, data, junk, m) == RunCode(b, data, junk, RunCode(a, data, junk, m))
  {
    hide RunInst;
    if b == [] {
      assert a + b == a;
    } else {
      RunAppend(a, b[..|b| - 1], data, junk, m);
      assert (a + b)[..|a + b| - 1] == a + b[..|b| - 1];
    }
  }

  lemma RunOne(inst: Inst, data: Data, junk: Junk, m: Mach)
    ensures RunCode([inst], data, junk, m) == RunInst(inst, data, junk, m)
  {
    assert [inst][..0] == [];
  }

  // ----- the heap ledger -----

  // Every block ever created is either live, or has been freed exactly once.
  ghost predicate Ledger(heap: Heap, next: nat, freed: seq<nat>) {
    && (forall id :: id in heap ==> id < next && id !in freed)
    && (forall id: nat :: id < next && id !in heap ==> id in freed)
    && (forall id :: id in freed ==> id < next)
    && (forall i, j :: 0 <= i < j < |freed| ==> freed[i] != freed[j])
  }

  lemma LedgerOfCreate(heap: Heap, next: nat, freed: seq<nat>, v: Val)
    requires Ledger(heap, next, freed)
    ensures Ledger(heap[next := v], next + 1, freed)
  {
  }

  lemma LedgerOfFree(heap: Heap, next: nat, freed: seq<nat>, id: nat)
    requires Ledger(heap, next, freed) && id in heap
    ensures Ledger(heap - {id}, next, freed + [id])
  {
    var freed' := freed + [id];
    forall i: nat | i < next && i !in heap - {id}
      ensures i in freed'
    {
      if i == id {
        assert freed'[|freed|] == id;
      }
    }
  }

  lemma LedgerOfCall(name: Symbol, data: Data, junk: Junk, m: Mach)
    requires Ledger(m.heap, m.next, m.freed)
    ensures var m' := Library(name, data, junk, m);
      Ledger(m'.heap, m'.next, m'.freed)
  {
    hide VaValues, RuntimePrintln, Live, Ledger;
    var rdi := Get(m, RDI);
    if rdi.Num? {
      LedgerOfCreate(m.heap, m.next, m.freed, VInt(rdi.n));
    } else if rdi.Addr? && rdi.symbol in data {
      LedgerOfCreate(m.heap, m.next, m.freed, VStr(CString(data[rdi.symbol])));
    } else if rdi.Ptr? && rdi.id in m.heap {
      LedgerOfFree(m.heap, m.next, m.freed, rdi.id);
    }
  }

  // Freeing twice and using a freed block are faults, so all code that runs keeps the ledger.
  lemma {:induction false} LedgerKept(code: seq<Inst>, data: Data, junk: Junk, m: Mach)
    requires Ledger(m.heap, m.next, m.freed)
    ensures var m' := RunCode(code, data, junk, m);
      Ledger(m'.heap, m'.next, m'.freed)
  {
    hide RunInst, Ledger;
    if code != [] {
      var init, last := code[..|code| - 1], code[|code| - 1];
      LedgerKept(init, data, junk, m);
      LedgerOfInst(last, data, junk, RunCode(init, data, junk, m));
    }
  }

  lemma LedgerOfInst(inst: Inst, data: Data, junk: Junk, m: Mach)
    requires Ledger(m.heap, m.next, m.freed)
    ensures var m' := RunInst(inst, data, junk, m);
      Ledger(m'.heap, m'.next, m'.freed)
  {
    hide Library, Ledger, Load;
    if inst.CallTo? {
      LedgerOfCall(inst.target, data, junk, m);
    }
  }

  // ----- whole files -----

  datatype Status = Running(pc: nat, mach: Mach) | Halted(code: int, final: Mach) | Crashed

  function LabelIndex(lines: seq<Node>, name: Symbol): Option<nat> {
    if lines == [] then None
    else if lines[0] == Label(name) then Some(0)
    else
      var i := LabelIndex(lines[1..], name);
      if i.None? then None else Some(i.value + 1)
  }

  function Step(lines: seq<Node>, data: Data, junk: Junk, st: Status): Status {
    if !st.Running? then st
    else if st.pc >= |lines| then Crashed
    else
      var m := st.mach;
      match lines[st.pc]
      case Label(_) => Running(st.pc + 1, m)
      case Globl(_) => Running(st.pc + 1, m)
      case Instruction(inst) =>
        if inst.CallTo? && LabelIndex(lines, inst.target).Some? then
          CallLocal(LabelIndex(lines, inst.target).value, st.pc + 1, m)
        else if inst == CallTo(Exit) then
          if Get(m, RDI).Num? then Halted(Get(m, RDI).n % 256, m) else Crashed
        else if inst.Ret? then ReturnLocal(m)
        else if RunInst(inst, data, junk, m).ok then Running(st.pc + 1, RunInst(inst, data, junk, m))
        else Crashed
      case _ => Crashed
  }

  function CallLocal(target: nat, back: nat, m: Mach): Status {
    var rsp := Get(m, RSP);
    if rsp.Num? then Running(target, Set(m.(mem := m.mem[rsp.n - 8 := Code(back)]), RSP, Num(rsp.n - 8))) else Crashed
  }

  function ReturnLocal(m: Mach): Status {
    var rsp := Get(m, RSP);
    if rsp.Num? && rsp.n in m.mem && m.mem[rsp.n].Code? then Running(m.mem[rsp.n].pc, Set(m, RSP, Num(rsp.n + 8)))
    else Crashed
  }

  function Steps(n: nat, lines: seq<Node>, data: Data, junk: Junk, st: Status): Status {
    if n == 0 then st else Step(lines, data, junk, Steps(n - 1, lines, data, junk, st))
  }

  lemma {:induction false} StepsAdd(a: nat, b: nat, lines: seq<Node>, data: Data, junk: Junk, st: Status)
    ensures Steps(a + b, lines, data, junk, st) == Steps(b, lines, data, junk, Steps(a, lines, data, junk, st))
  {
    if b != 0 {
      StepsAdd(a, b - 1, lines, data, junk, st);
    }
  }

  // Instructions that always continue with the next line.
  predicate Straight(lines: seq<Node>, inst: Inst) {
    !inst.Ret? && (inst.CallTo? ==> inst.target != Exit && LabelIndex(lines, inst.target).None?)
  }

  lemma {:induction false} StraightFails(code: seq<Inst>, n: nat, data: Data, junk: Junk, m: Mach)
    requires n <= |code| && RunCode(code, data, junk, m).ok
    ensures RunCode(code[..n], data, junk, m).ok
    decreases |code|
  {
    if n < |code| {
      assert code[..|code| - 1][..n] == code[..n];
      StraightFails(code[..|code| - 1], n, data, junk, m);
    } else {
      assert code[..n] == code;
    }
  }

  lemma LastLine(code: seq<Inst>, lines: seq<Node>, pc: nat)
    requires code != [] && pc + |code| <= |lines| && lines[pc..pc + |code|] == Instructions(code)
    ensures var n := |code| - 1;
      lines[pc..pc + n] == Instructions(code[..n]) && lines[pc + n] == Instruction(code[n])
  {
    var n := |code| - 1;
    assert Instructions(code[..n]) == Instructions(code)[..n] == lines[pc..pc + |code|][..n];
    assert lines[pc..pc + |code|][..n] == lines[pc..pc + n];
    assert lines[pc + n] == lines[pc..pc + |code|][n];
  }

  // Straight-line code found at the program counter runs as the fold of its instructions.
  lemma {:induction false} StraightRun(code: seq<Inst>, lines: seq<Node>, data: Data, junk: Junk, pc: nat, m: Mach)
    requires pc + |code| <= |lines| && lines[pc..pc + |code|] == Instructions(code)
    requires forall i :: 0 <= i < |code| ==> Straight(lines, code[i])
    requires m.ok && RunCode(code, data, junk, m).ok
    ensures Steps(|code|, lines, data, junk, Running(pc, m)) == Running(pc + |code|, RunCode(code, data, junk, m))
    decreases |code|
  {
    hide RunInst, LabelIndex, Instructions;
    if code != [] {
      var n := |code| - 1;
      var init := code[..n];
      LastLine(code, lines, pc);
      StraightFails(code, n, data, junk, m);
      StraightRun(init, lines, data, junk, pc, m);
      assert Straight(lines, code[n]);
    }
  }
}
