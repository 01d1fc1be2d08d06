/**
  What becomes of compiled programs with calls of more than five arguments. Such a call leaves
  %rsp above %rbp, and the program never exits: the next call faults, or main returns to a word
  of the process's own stack.
*/
module Drift {
  import opened Ast
  import opened Asm
  import opened Compile
  import opened Runtime
  import opened Machine
  import opened CompileCorrect

  // ----- faults -----

  lemma {:induction false} FaultStays(code: seq<Inst>, data: Data, junk: Junk, m: Mach)
    requires !m.ok
    ensures RunCode(code, data, junk, m) == m
  {
    if code != [] {
      FaultStays(code[..|code| - 1], data, junk, m);
    }
  }

  lemma FaultyPrefix(a: seq<Inst>, b: seq<Inst>, data: Data, junk: Junk, m: Mach)
    requires !RunCode(a, data, junk, m).ok
    ensures !RunCode(a + b, data, junk, m).ok
  {
    hide RunCode;
    RunAppend(a, b, data, junk, m);
    FaultStays(b, data, junk, RunCode(a, data, junk, m));
  }

  // Code without jumps that faults somewhere crashes the machine.
  lemma {:induction false} StraightCrash(code: seq<Inst>, lines: seq<Node>, data: Data, junk: Junk, pc: nat, m: Mach)
    requires pc + |code| <= |lines| && lines[pc..pc + |code|] == Instructions(code)
    requires forall i :: 0 <= i < |code| ==> Straight(lines, code[i])
    requires m.ok && !RunCode(code, data, junk, m).ok
    ensures Steps(|code|, lines, data, junk, Running(pc, m)) == Crashed
    decreases |code|
  {
    hide RunInst, LabelIndex, Instructions;
    if code != [] {
      var n := |code| - 1;
      var init := code[..n];
      LastLine(code, lines, pc);
      assert Straight(lines, code[n]);
      if RunCode(init, data, junk, m).ok {
        StraightRun(init, lines, data, junk, pc, m);
      } else {
        StraightCrash(init, lines, data, junk, pc, m);
      }
    }
  }

  // ----- a call behind a call with too many arguments -----

  // %rsp is x words above %rbp; the argument count of the last call may still lie below.
  ghost predicate Drifted(m: Mach, b: int, x: nat) {
    && m.ok && Get(m, RBP) == Num(b) && Get(m, RSP) == Num(b + 8 * x) && x >= 1
    && m.heap == map[] && (b - 8 in m.mem ==> m.mem[b - 8].Num? && m.mem[b - 8].n > 0)
  }

  // Loads from the frame load the first register first, from the cell below %rbp.
  lemma {:induction false} FirstLoad(n: nat, data: Data, junk: Junk, m: Mach, b: int)
    requires m.ok && Get(m, RBP) == Num(b) && n >= 1
    ensures var m' := RunCode(LoadCode(n), data, junk, m);
      m'.ok ==>
        && Cell(b, 0) in m.mem && Get(m', RDI) == m.mem[Cell(b, 0)] && Get(m', RBP) == Num(b)
        && m' == m.(regs := m'.regs)
  {
    hide RunCode, RunInst;
    if n <= 6 {
      var inst := Mov(Offset(-8 * n, RBP), Register(ArgReg(n - 1)));
      RunAppend(LoadCode(n - 1), [inst], data, junk, m);
      if n == 1 {
        NoCode(data, junk, m);
      } else {
        FirstLoad(n - 1, data, junk, m, b);
      }
      var m1 := RunCode(LoadCode(n - 1), data, junk, m);
      RunOne(inst, data, junk, m1);
      OneLoad(n - 1, data, junk, m1, b);
    } else {
      FirstLoad(n - 1, data, junk, m, b);
      assert LoadCode(n - 1) + [] == LoadCode(n - 1);
    }
  }

  lemma OneLoad(i: nat, data: Data, junk: Junk, m: Mach, b: int)
    requires i < 6 && (m.ok ==> Get(m, RBP) == Num(b))
    ensures var m' := RunInst(Mov(Offset(-8 * (i + 1), RBP), Register(ArgReg(i))), data, junk, m);
      m'.ok ==>
        && m.ok && Cell(b, i) in m.mem && Get(m', ArgReg(i)) == m.mem[Cell(b, i)] && Get(m', RBP) == Num(b)
        && m' == m.(regs := m'.regs) && (i > 0 ==> Get(m', RDI) == Get(m, RDI))
  {
    assert Cell(b, i) == b + -8 * (i + 1);
  }

  lemma NoValues(m: Mach, argc: nat)
    requires m.heap == map[] && argc > 0
    ensures VaValues(m, argc).None?
  {
  }

  // Without a proper argument count println faults.
  lemma PrintFaults(data: Data, junk: Junk, m: Mach)
    requires m.ok ==> !Get(m, RDI).Num? || (Get(m, RDI).n > 0 && m.heap == map[])
    ensures !RunInst(CallTo(PrintLine), data, junk, m).ok
  {
    hide VaValues;
    if m.ok && Get(m, RDI).Num? {
      NoValues(m, Get(m, RDI).n);
    }
  }

  lemma PrintingFaults(n: nat, data: Data, junk: Junk, m: Mach, b: int)
    requires m.ok && Get(m, RBP) == Num(b)
    requires b - 8 in m.mem ==> !m.mem[b - 8].Num? || (m.mem[b - 8].n > 0 && m.heap == map[])
    ensures !RunCode(LoadCode(n + 1) + [CallTo(PrintLine)], data, junk, m).ok
  {
    hide RunCode, RunInst;
    FirstLoad(n + 1, data, junk, m, b);
    var m1 := RunCode(LoadCode(n + 1), data, junk, m);
    RunAppend(LoadCode(n + 1), [CallTo(PrintLine)], data, junk, m);
    RunOne(CallTo(PrintLine), data, junk, m1);
    assert Cell(b, 0) == b - 8;
    PrintFaults(data, junk, m1);
  }

  lemma DriftedCall(args: seq<Expr>, k: nat, data: Data, junk: Junk, m: Mach, b: int, x: nat)
    requires forall i :: 0 <= i < |args| ==> Literal(args[i])
    requires Drifted(m, b, x) && Covers(data, k, StringsOf(args))
    ensures !RunCode(CallCode(args, k), data, junk, m).ok
  {
    hide RunCode, RunInst, ArgsCode, LoadCode, Live, Added, Pushed, StringsOf, Covers, ValuesOf;
    var n := |args|;
    var count := [Mov(Imm(n), Register(RDI)), Push(Register(RDI))];
    var printing := LoadCode(n + 1) + [CallTo(PrintLine)];
    var a := b + 8 * x - 8;
    CountRun(n, data, junk, m, b + 8 * x);
    var m1 := RunCode(count, data, junk, m);
    ArgsRun(args, k, data, junk, m1, a);
    var m2 := RunCode(ArgsCode(args, k), data, junk, m1);
    BelowFrame(args, m, m1, m2, b, x);
    if args == [] {
      NoArgs(k);
      NoCode(data, junk, m1);
    }
    PrintingFaults(n, data, junk, m2, b);
    RunAppend(count, ArgsCode(args, k), data, junk, m);
    RunAppend(count + ArgsCode(args, k), printing, data, junk, m);
    FaultyPrefix(count + ArgsCode(args, k) + printing, EndCode(n), data, junk, m);
    assert CallCode(args, k) == count + ArgsCode(args, k) + printing + EndCode(n);
  }

  lemma NoArgs(k: nat)
    ensures ArgsCode([], k) == []
  {
  }

  // What the call finds below %rbp is no argument count of its own.
  lemma BelowFrame(args: seq<Expr>, m: Mach, m1: Mach, m2: Mach, b: int, x: nat)
    requires Drifted(m, b, x) && m1.mem == m.mem[b + 8 * x - 8 := Num(|args|)]
    requires var a, n := b + 8 * x - 8, |args|;
      && Live(m2.mem, a - 8 * n) == Pushed(Live(m1.mem, a), a, m.next, n)
      && (n > 0 ==> Live(m2.mem, a - 8 * n) == m2.mem)
    ensures args != [] && b - 8 in m2.mem ==> m2.mem[b - 8].Ptr?
    ensures b - 8 in m1.mem ==> m1.mem[b - 8].Num? && m1.mem[b - 8].n > 0
  {
    var a, n := b + 8 * x - 8, |args|;
    var mem := Live(m1.mem, a);
    PushedCells(mem, a, m.next, n);
    if n >= x {
      assert Cell(a, x - 1) == b - 8;
    }
  }

  // ----- whole programs -----

  lemma {:induction false} ProgramDrifts(program: seq<Stmt>, data: Data, junk: Junk, m: Mach, b: int)
    requires PrintlnCalls(program) && !AtMostFive(program)
    requires Ready(m, b) && m.heap == map[] && Covers(data, 0, ProgramStrings(program))
    ensures var m' := RunCode(ProgramCode(program), data, junk, m);
      m'.ok ==> Live(m'.mem, b) == Live(m.mem, b) && exists x: nat :: Drifted(m', b, x)
  {
    hide RunCode, CallCode, Live, StringsOf, Covers, RuntimePrintln, AsPrinted, FreeOrder;
    var init, args := program[..|program| - 1], ArgsOf(program[|program| - 1]);
    var k := |ProgramStrings(init)|;
    CoversSplit(data, 0, ProgramStrings(init), StringsOf(args));
    RunAppend(ProgramCode(init), CallCode(args, k), data, junk, m);
    var m1 := RunCode(ProgramCode(init), data, junk, m);
    if AtMostFive(init) {
      ProgramRun(init, data, junk, m, b);
      CallRun(args, k, data, junk, m1, b);
      assert Drifted(RunCode(CallCode(args, k), data, junk, m1), b, |args| - 5);
    } else {
      ProgramDrifts(init, data, junk, m, b);
      if m1.ok {
        var x: nat :| Drifted(m1, b, x);
        DriftedCall(args, k, data, junk, m1, b, x);
      } else {
        FaultyPrefix(ProgramCode(init), CallCode(args, k), data, junk, m);
      }
    }
  }

  // After main %rsp points to the words above the frames, if anything was left to run, and these
  // words are as they were.
  lemma MainDrifts(program: seq<Stmt>, data: Data, junk: Junk, m: Mach, a: int)
    requires PrintlnCalls(program) && !AtMostFive(program) && Covers(data, 0, ProgramStrings(program))
    requires m.ok && Get(m, RSP) == Num(a) && m.heap == map[]
    ensures var m' := RunCode(MainCode(program), data, junk, m);
      m'.ok ==>
        && m'.heap == map[] && Live(m'.mem, a) == Live(m.mem, a)
        && exists x: nat :: x >= 1 && Get(m', RSP) == Num(a + 8 * x)
  {
    hide RunCode, ProgramCode, ProgramStrings, Covers, Live;
    var setup, body, restore := [Push(Register(RBP)), Mov(Register(RSP), Register(RBP))], ProgramCode(program), [Pop(Register(RBP))];
    RunAppend(setup + body, restore, data, junk, m);
    RunAppend(setup, body, data, junk, m);
    SetupRun(data, junk, m, a);
    var m1 := RunCode(setup, data, junk, m);
    ProgramDrifts(program, data, junk, m1, a - 8);
    var m2 := RunCode(body, data, junk, m1);
    if m2.ok {
      var x: nat :| Drifted(m2, a - 8, x);
      RunOne(Pop(Register(RBP)), data, junk, m2);
      LiveOfLive(m1.mem, a - 8, a);
      LiveOfLive(m2.mem, a - 8, a);
      PushedBelow(m.mem, a, Get(m, RBP));
    } else {
      FaultStays(restore, data, junk, m2);
    }
  }

  lemma PushedBelow(mem: Memory, a: int, w: Word)
    ensures Live(mem[a - 8 := w], a) == Live(mem, a)
  {
  }

  // The only address of the file that a process finds on its stack is its entry point, _start.
  ghost predicate OnlyEntry(mem: Memory, s: int) {
    forall a :: a in mem && a >= s && mem[a].Code? ==> mem[a] == Code(1)
  }

  lemma OnlyEntryAbove(mem: Memory, mem': Memory, s: int, s': int)
    requires OnlyEntry(mem, s) && Live(mem', s) == Live(mem, s) && s <= s'
    ensures OnlyEntry(mem', s') && (s in mem' && mem'[s].Code? ==> mem'[s] == Code(1))
  {
    forall a | a in mem' && a >= s
      ensures a in mem && mem[a] == mem'[a]
    {
      assert a in Live(mem', s);
    }
  }

  // One pass over the file, from _start to the return of main: a crash, or back to _start with
  // %rsp further up.
  lemma OnePass(program: seq<Stmt>, data: Data, junk: Junk, m: Mach, s: int) returns (m': Mach, s': int)
    requires PrintlnCalls(program) && !AtMostFive(program) && Covers(data, 0, ProgramStrings(program))
    requires m.ok && Get(m, RSP) == Num(s) && m.heap == map[] && OnlyEntry(m.mem, s)
    ensures var st := Steps(|MainCode(program)| + 4, FileLines(program), data, junk, Running(1, m));
      st == Crashed
      || (st == Running(1, m') && m'.ok && Get(m', RSP) == Num(s') && m'.heap == map[] && OnlyEntry(m'.mem, s'))
  {
    hide RunCode, MainCode, FileLines, ProgramStrings, Covers, LabelIndex, Library, Steps, Step, Straight, Live;
    hide OnlyEntry;
    var lines, code := FileLines(program), MainCode(program);
    var n := |code|;
    FileLayout(program);
    var m1 := Set(m.(mem := m.mem[s - 8 := Code(3)]), RSP, Num(s - 8));
    Begin(lines, data, junk, m, s);
    MainDrifts(program, data, junk, m1, s - 8);
    MainIsStraight(program);
    var m2 := RunCode(code, data, junk, m1);
    StepsAdd(3, n, lines, data, junk, Running(1, m));
    StepsAdd(3 + n, 1, lines, data, junk, Running(1, m));
    if m2.ok {
      StraightRun(code, lines, data, junk, 6, m1);
      var x: nat :| x >= 1 && Get(m2, RSP) == Num(s - 8 + 8 * x);
      m', s' := Set(m2, RSP, Num(s + 8 * x)), s + 8 * x;
      LiveOfLive(m1.mem, s - 8, s - 8 + 8 * x);
      LiveOfLive(m2.mem, s - 8, s - 8 + 8 * x);
      PushedBelow(m.mem, s, Code(3));
      LiveOfLive(m1.mem, s, s - 8 + 8 * x);
      LiveOfLive(m.mem, s, s - 8 + 8 * x);
      Above(m.mem, s, s - 8 + 8 * x);
      OnlyEntryAbove(m.mem, m2.mem, s - 8 + 8 * x, s');
      MainReturns(lines, data, junk, m2, 6 + n, s - 8 + 8 * x);
    } else {
      m', s' := m, s;
      StraightCrash(code, lines, data, junk, 6, m1);
      StaysCrashed(1, lines, data, junk);
    }
  }

  lemma Above(mem: Memory, s: int, s': int)
    requires OnlyEntry(mem, s) && s <= s'
    ensures OnlyEntry(mem, s')
  {
  }

  lemma MainReturns(lines: seq<Node>, data: Data, junk: Junk, m: Mach, pc: nat, a: int)
    requires |lines| > pc && lines[pc] == Instruction(Ret)
    requires Get(m, RSP) == Num(a) && (a in m.mem && m.mem[a].Code? ==> m.mem[a] == Code(1))
    ensures var st := Steps(1, lines, data, junk, Running(pc, m));
      st == Crashed || st == Running(1, Set(m, RSP, Num(a + 8)))
  {
    hide LabelIndex, RunInst;
    var start := Running(pc, m);
    assert Steps(1, lines, data, junk, start) == Step(lines, data, junk, Steps(0, lines, data, junk, start));
  }

  // A compiled file with a call of more than five arguments never reaches its exit: main returns
  // to no address of the file at all, or to the entry, which runs the file again and again.
  lemma {:induction false} FileDrifts(program: seq<Stmt>, data: Data, junk: Junk, m: Mach, s: int, n: nat)
    requires PrintlnCalls(program) && !AtMostFive(program) && Covers(data, 0, ProgramStrings(program))
    requires m.ok && Get(m, RSP) == Num(s) && m.heap == map[] && OnlyEntry(m.mem, s)
    ensures !Steps(n, FileLines(program), data, junk, Running(1, m)).Halted?
    decreases n
  {
    hide MainCode, FileLines, ProgramStrings, Covers, Steps, OnlyEntry;
    var lines, pass := FileLines(program), |MainCode(program)| + 4;
    var m', s' := OnePass(program, data, junk, m, s);
    if n >= pass {
      StepsAdd(pass, n - pass, lines, data, junk, Running(1, m));
      if Steps(pass, lines, data, junk, Running(1, m)) == Crashed {
        StaysCrashed(n - pass, lines, data, junk);
      } else {
        FileDrifts(program, data, junk, m', s', n - pass);
      }
    } else if Steps(n, lines, data, junk, Running(1, m)).Halted? {
      StepsAdd(n, pass - n, lines, data, junk, Running(1, m));
      StaysHalted(pass - n, lines, data, junk, Steps(n, lines, data, junk, Running(1, m)));
    }
  }

  lemma {:induction false} StaysCrashed(n: nat, lines: seq<Node>, data: Data, junk: Junk)
    ensures Steps(n, lines, data, junk, Crashed) == Crashed
  {
    if n > 0 {
      StaysCrashed(n - 1, lines, data, junk);
    }
  }

  lemma {:induction false} StaysHalted(n: nat, lines: seq<Node>, data: Data, junk: Junk, st: Status)
    requires st.Halted?
    ensures Steps(n, lines, data, junk, st) == st
  {
    if n > 0 {
      StaysHalted(n - 1, lines, data, junk, st);
    }
  }

  // A run halts in one state only.
  lemma HaltsOnce(a: nat, b: nat, lines: seq<Node>, data: Data, junk: Junk, st: Status)
    requires Steps(a, lines, data, junk, st).Halted? && Steps(b, lines, data, junk, st).Halted?
    ensures Steps(a, lines, data, junk, st) == Steps(b, lines, data, junk, st)
  {
    hide Steps, Step;
    var less, more := if a <= b then a else b, if a <= b then b else a;
    StepsAdd(less, more - less, lines, data, junk, st);
    StaysHalted(more - less, lines, data, junk, Steps(less, lines, data, junk, st));
  }
}
