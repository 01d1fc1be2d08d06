/** Compiled programs on the machine: what they print, and how they treat stack and heap. */
module CompileCorrect {
  import opened Ast
  import opened Asm
  import opened Eval
  import opened Compile
  import opened Runtime
  import opened Machine
  import Decimal

  // ----- the values of the arguments -----

  function ValueOf(e: Expr): Val
    requires Literal(e)
  {
    if e.IntLit? then VInt(e.n) else VStr(e.s)
  }

  function ValuesOf(args: seq<Expr>): seq<Val>
    requires forall i :: 0 <= i < |args| ==> Literal(args[i])
  {
    seq(|args|, i requires 0 <= i < |args| => ValueOf(args[i]))
  }

  // A C program sees these strings under the labels from number k on.
  ghost predicate Covers(data: Data, k: nat, strings: seq<string>) {
    forall i: nat :: i < |strings| ==> Holds(data, k + i, strings[i])
  }

  ghost predicate Holds(data: Data, n: nat, s: string) {
    LabelName(n) in data && CString(data[LabelName(n)]) == s
  }

  lemma CoversSplit(data: Data, k: nat, a: seq<string>, b: seq<string>)
    requires Covers(data, k, a + b)
    ensures Covers(data, k, a) && Covers(data, k + |a|, b)
  {
    forall i: nat | i < |a|
      ensures Holds(data, k + i, a[i])
    {
      assert (a + b)[i] == a[i];
    }
    forall i: nat | i < |b|
      ensures Holds(data, k + |a| + i, b[i])
    {
      assert (a + b)[|a| + i] == b[i] && k + |a| + i == k + (|a| + i);
    }
  }

  // ----- creating the arguments -----

  // The address of stack cell number j below address a.
  function Cell(a: int, j: nat): int { a - 8 * (j + 1) }

  function Pushed(mem: Memory, a: int, id: nat, n: nat): Memory {
    if n == 0 then mem else Pushed(mem, a, id, n - 1)[Cell(a, n - 1) := Ptr(id + n - 1)]
  }

  function Added(heap: Heap, id: nat, vs: seq<Val>): Heap {
    if vs == [] then heap else Added(heap, id, vs[..|vs| - 1])[id + |vs| - 1 := vs[|vs| - 1]]
  }

  lemma {:induction false} PushedCells(mem: Memory, a: int, id: nat, n: nat)
    requires forall x :: x in mem ==> x >= a
    ensures forall x :: x in Pushed(mem, a, id, n) ==> x >= a - 8 * n
    ensures forall j: nat :: j < n ==> Cell(a, j) in Pushed(mem, a, id, n) && Pushed(mem, a, id, n)[Cell(a, j)] == Ptr(id + j)
    ensures Live(Pushed(mem, a, id, n), a) == mem
  {
    if n != 0 {
      PushedCells(mem, a, id, n - 1);
    }
  }

  lemma {:induction false} AddedValues(heap: Heap, id: nat, vs: seq<Val>)
    requires forall x :: x in heap ==> x < id
    ensures forall x :: x in Added(heap, id, vs) <==> x in heap || id <= x < id + |vs|
    ensures forall x :: x in heap ==> Added(heap, id, vs)[x] == heap[x]
    ensures forall j: nat :: j < |vs| ==> Added(heap, id, vs)[id + j] == vs[j]
  {
    if vs != [] {
      AddedValues(heap, id, vs[..|vs| - 1]);
    }
  }

  // The frame registers and the accounts that a piece of code leaves alone.
  ghost predicate SameFrame(m: Mach, m': Mach) {
    m'.ok && Get(m', RBP) == Get(m, RBP) && Get(m', RBX) == Get(m, RBX)
  }

  // The state in which a library call leaves the machine.
  ghost predicate AfterCall(m: Mach, m': Mach, rax: Word)
    requires Get(m, RSP).Num?
  {
    && m'.ok == m.ok && m'.mem == Live(m.mem, Get(m, RSP).n)
    && m'.heap == m.heap && m'.next == m.next && m'.freed == m.freed && m'.out == m.out
    && Get(m', RSP) == Get(m, RSP) && Get(m', RBP) == Get(m, RBP) && Get(m', RBX) == Get(m, RBX) && Get(m', RAX) == rax
  }

  lemma CallReturns(m: Mach, rax: Word, junk: Junk)
    requires Get(m, RSP).Num?
    ensures AfterCall(m, Returned(m, rax, junk), rax)
  {
    hide Live;
  }

  lemma OneString(e: Expr)
    ensures StringsOf([e]) == if e.StrLit? then [e.s] else []
  {
    assert [e][..0] == [];
  }

  lemma ExprRun(e: Expr, k: nat, data: Data, junk: Junk, m: Mach, a: int)
    requires Literal(e) && m.ok && Get(m, RSP) == Num(a) && Covers(data, k, StringsOf([e]))
    ensures var m' := RunCode(ExprCode(e, k), data, junk, m);
      && SameFrame(m, m') && Get(m', RSP) == Num(a) && Get(m', RAX) == Ptr(m.next)
      && m'.mem == Live(m.mem, a) && m'.heap == m.heap[m.next := ValueOf(e)] && m'.next == m.next + 1
      && m'.freed == m.freed && m'.out == m.out
  {
    hide VaValues, RuntimePrintln, Live, LabelName, RunCode, StringsOf, Returned;
    var code := ExprCode(e, k);
    assert code == [code[0]] + [code[1]];
    RunAppend([code[0]], [code[1]], data, junk, m);
    RunOne(code[0], data, junk, m);
    if e.StrLit? {
      assert StringsOf([e])[0] == e.s by {
        OneString(e);
      }
      assert Holds(data, k + 0, e.s);
    }
    var w := if e.IntLit? then Num(e.n) else Addr(LabelName(k));
    assert RunCode([code[0]], data, junk, m) == Set(m, RDI, w);
    RunOne(code[1], data, junk, Set(m, RDI, w));
    CallReturns(Set(m, RDI, w).(heap := m.heap[m.next := ValueOf(e)], next := m.next + 1), Ptr(m.next), junk);
  }

  // The state after the arguments were created in order and pushed one below the other.
  ghost predicate Argued(m: Mach, m': Mach, args: seq<Expr>, a: int)
    requires forall i :: 0 <= i < |args| ==> Literal(args[i])
  {
    && SameFrame(m, m') && Get(m', RSP) == Num(a - 8 * |args|)
    && Live(m'.mem, a - 8 * |args|) == Pushed(Live(m.mem, a), a, m.next, |args|)
    && m'.heap == Added(m.heap, m.next, ValuesOf(args)) && m'.next == m.next + |args|
    && m'.freed == m.freed && m'.out == m.out
    && (args != [] ==> Live(m'.mem, a - 8 * |args|) == m'.mem)
  }

  lemma {:induction false} ArgsRun(args: seq<Expr>, k: nat, data: Data, junk: Junk, m: Mach, a: int)
    requires forall i :: 0 <= i < |args| ==> Literal(args[i])
    requires m.ok && Get(m, RSP) == Num(a) && Covers(data, k, StringsOf(args))
    ensures Argued(m, RunCode(ArgsCode(args, k), data, junk, m), args, a)
  {
    hide ExprCode, StringsOf, RunCode, Covers, Argued, ArgDone;
    if args == [] {
      NoCode(data, junk, m);
      NoArgument(m, a);
    } else {
      var n := |args| - 1;
      var init, e := args[..n], args[n];
      var k' := k + |StringsOf(init)|;
      StringsSplit(args, n);
      assert args[..n + 1] == args;
      CoversSplit(data, k, StringsOf(init), StringsOf([e]));
      ArgsRun(init, k, data, junk, m, a);
      var one := ExprCode(e, k') + [Push(Register(RAX))];
      assert ArgsCode(args, k) == ArgsCode(init, k) + one;
      RunAppend(ArgsCode(init, k), one, data, junk, m);
      var m1 := RunCode(ArgsCode(init, k), data, junk, m);
      assert m1.ok && Get(m1, RSP) == Num(a - 8 * n) by {
        ArguedReady(m, m1, init, a);
      }
      ArgRun(e, k', data, junk, m1, a - 8 * n);
      OneMoreArgued(m, m1, RunCode(one, data, junk, m1), args, a);
    }
  }

  lemma NoArgument(m: Mach, a: int)
    requires m.ok && Get(m, RSP) == Num(a)
    ensures Argued(m, m, [], a)
  {
  }

  lemma ArguedReady(m: Mach, m': Mach, args: seq<Expr>, a: int)
    requires (forall i :: 0 <= i < |args| ==> Literal(args[i])) && Argued(m, m', args, a)
    ensures m'.ok && Get(m', RSP) == Num(a - 8 * |args|)
  {
  }

  lemma OneMoreArgued(m: Mach, m1: Mach, m2: Mach, args: seq<Expr>, a: int)
    requires args != [] && forall i :: 0 <= i < |args| ==> Literal(args[i])
    requires var n := |args| - 1;
      Argued(m, m1, args[..n], a) && ArgDone(m1, m2, args[n], a - 8 * n)
    ensures Argued(m, m2, args, a)
  {
    hide Live, Pushed, Added, ValuesOf, ValueOf, Get;
    OneMoreArg(Live(m.mem, a), a, m.next, m.heap, args);
  }

  // The cells and the values of the arguments, from those of all but the last.
  lemma OneMoreArg(mem: Memory, a: int, id: nat, heap: Heap, args: seq<Expr>)
    requires forall i :: 0 <= i < |args| ==> Literal(args[i])
    ensures args == [] ==> Pushed(mem, a, id, 0) == mem && Added(heap, id, ValuesOf(args)) == heap
    ensures args != [] ==>
      var n := |args| - 1;
      && Pushed(mem, a, id, n + 1) == Pushed(mem, a, id, n)[a - 8 * n - 8 := Ptr(id + n)]
      && Added(heap, id, ValuesOf(args)) == Added(heap, id, ValuesOf(args[..n]))[id + n := ValueOf(args[n])]
  {
    if args != [] {
      assert ValuesOf(args)[..|args| - 1] == ValuesOf(args[..|args| - 1]);
    }
  }

  // The state after one argument was created and pushed.
  ghost predicate ArgDone(m: Mach, m': Mach, e: Expr, a: int)
    requires Literal(e)
  {
    && SameFrame(m, m') && Get(m', RSP) == Num(a - 8)
    && m'.mem == Live(m'.mem, a - 8) == Live(m.mem, a)[a - 8 := Ptr(m.next)]
    && m'.heap == m.heap[m.next := ValueOf(e)] && m'.next == m.next + 1
    && m'.freed == m.freed && m'.out == m.out
  }

  lemma ArgRun(e: Expr, k: nat, data: Data, junk: Junk, m: Mach, a: int)
    requires Literal(e) && m.ok && Get(m, RSP) == Num(a) && Covers(data, k, StringsOf([e]))
    ensures ArgDone(m, RunCode(ExprCode(e, k) + [Push(Register(RAX))], data, junk, m), e, a)
  {
    hide RunInst, ExprCode, StringsOf, Live, RunCode, Covers;
    RunAppend(ExprCode(e, k), [Push(Register(RAX))], data, junk, m);
    ExprRun(e, k, data, junk, m, a);
    var m2 := RunCode(ExprCode(e, k), data, junk, m);
    RunOne(Push(Register(RAX)), data, junk, m2);
    PushRun(RAX, data, junk, m2, m.mem, a);
  }

  lemma NoCode(data: Data, junk: Junk, m: Mach)
    ensures RunCode([], data, junk, m) == m
  {
  }

  lemma PushRun(r: Reg, data: Data, junk: Junk, m: Mach, mem: Memory, a: int)
    requires m.ok && Get(m, RSP) == Num(a) && r != RSP && r != RBP && r != RBX && m.mem == Live(mem, a)
    ensures var m' := RunInst(Push(Register(r)), data, junk, m);
      && SameFrame(m, m') && Get(m', RSP) == Num(a - 8)
      && m'.mem == Live(m'.mem, a - 8) == Live(mem, a)[a - 8 := Get(m, r)]
      && m'.heap == m.heap && m'.next == m.next && m'.freed == m.freed && m'.out == m.out
  {
  }

  // ----- loading and printing -----

  lemma ParameterRegisters()
    ensures forall i: nat, j: nat :: i < j < 6 ==> ArgReg(i) != ArgReg(j)
    ensures forall i: nat :: i < 6 ==> ArgReg(i) != RSP && ArgReg(i) != RBP && ArgReg(i) != RBX
  {
  }

  // The variadic walk looks for argument number i where the call passes number i + 1.
  lemma VaRegisters(m: Mach, i: nat)
    requires i < 5
    ensures VaArg(m, i) == Some(Get(m, ArgReg(i + 1)))
  {
  }

  lemma {:induction false} LoadRun(n: nat, data: Data, junk: Junk, m: Mach, b: int)
    requires m.ok && Get(m, RBP) == Num(b)
    requires forall i: nat :: i < n && i < 6 ==> Cell(b, i) in m.mem
    ensures var m' := RunCode(LoadCode(n), data, junk, m);
      && m' == m.(regs := m'.regs) && SameFrame(m, m') && Get(m', RSP) == Get(m, RSP)
      && (forall i: nat :: i < n && i < 6 ==> Get(m', ArgReg(i)) == m.mem[Cell(b, i)])
  {
    hide RunCode, RunInst, ArgReg, Live;
    ParameterRegisters();
    if n == 0 {
      NoCode(data, junk, m);
    } else {
      LoadRun(n - 1, data, junk, m, b);
      var m1 := RunCode(LoadCode(n - 1), data, junk, m);
      if n <= 6 {
        var inst := Mov(Offset(-8 * n, RBP), Register(ArgReg(n - 1)));
        RunAppend(LoadCode(n - 1), [inst], data, junk, m);
        RunOne(inst, data, junk, m1);
        LoadOne(n - 1, data, junk, m1, b);
      } else {
        assert LoadCode(n - 1) + [] == LoadCode(n - 1);
      }
    }
  }

  lemma LoadOne(i: nat, data: Data, junk: Junk, m: Mach, b: int)
    requires i < 6 && m.ok && Get(m, RBP) == Num(b) && Cell(b, i) in m.mem
    ensures RunInst(Mov(Offset(-8 * (i + 1), RBP), Register(ArgReg(i))), data, junk, m) == Set(m, ArgReg(i), m.mem[Cell(b, i)])
  {
    assert Cell(b, i) == b + -8 * (i + 1);
  }

  // Variable argument number i of n is argument number PrintOrder(n, i) of the call: the ones
  // that do not fit in registers are found on the stack last pushed first.
  function PrintOrder(n: nat, i: nat): (j: nat)
    requires i < n
    ensures j < n
  {
    if i < 5 then i else n - 1 - (i - 5)
  }

  function AsPrinted(vs: seq<Val>): seq<Val> {
    seq(|vs|, i requires 0 <= i < |vs| => vs[PrintOrder(|vs|, i)])
  }

  // Up to six arguments arrive in order.
  lemma UpToSixInOrder(vs: seq<Val>)
    requires |vs| <= 6
    ensures AsPrinted(vs) == vs
  {
  }

  // The arguments are the heap blocks from id on.
  ghost predicate Holding(heap: Heap, id: nat, vs: seq<Val>) {
    forall j: nat :: j < |vs| ==> BlockHolds(heap, id + j, vs[j])
  }

  ghost predicate BlockHolds(heap: Heap, id: nat, v: Val) { id in heap && heap[id] == v }

  ghost predicate Passed(m: Mach, id: nat, n: nat) {
    forall i: nat :: i < n ==> VaArg(m, i) == Some(Ptr(id + PrintOrder(n, i)))
  }

  lemma {:induction false} VaRun(m: Mach, vs: seq<Val>, id: nat, t: nat)
    requires t <= |vs| && Passed(m, id, |vs|) && Holding(m.heap, id, vs)
    ensures VaValues(m, t) == Some(AsPrinted(vs)[..t])
  {
    hide VaArg;
    if t != 0 {
      VaRun(m, vs, id, t - 1);
      var j := PrintOrder(|vs|, t - 1);
      assert VaArg(m, t - 1) == Some(Ptr(id + j));
      assert BlockHolds(m.heap, id + j, vs[j]);
      assert AsPrinted(vs)[..t] == AsPrinted(vs)[..t - 1] + [AsPrinted(vs)[t - 1]];
    }
  }

  // ----- freeing -----

  ghost predicate Popped(m: Mach, a: int, id: nat) {
    a in m.mem && m.mem[a] == Ptr(id) && id in m.heap
  }

  // The heap without the t blocks from number top down.
  function Without(heap: Heap, top: int, t: nat): Heap {
    map id | id in heap && !(top - t < id <= top) :: heap[id]
  }

  lemma NoneFree(heap: Heap, top: int)
    ensures Without(heap, top, 0) == heap
  {
  }

  lemma FreeOneMore(heap: Heap, top: int, t: nat)
    requires top >= t
    ensures Without(heap, top, t) - {top - t} == Without(heap, top, t + 1)
    ensures top - t in heap ==> top - t in Without(heap, top, t)
    ensures seq(t, j requires 0 <= j < t => top - j) + [top - t] == seq(t + 1, j requires 0 <= j < t + 1 => top - j)
  {
  }

  lemma LiveOfLive(mem: Memory, a: int, b: int)
    requires a <= b
    ensures Live(Live(mem, a), b) == Live(mem, b)
    ensures b in Live(mem, a) <==> b in mem
    ensures b in mem ==> Live(mem, a)[b] == mem[b]
  {
  }

  // t blocks are popped and freed, starting with block number top.
  lemma {:induction false} FreeRun(t: nat, data: Data, junk: Junk, m: Mach, a: int, top: int)
    requires m.ok && Get(m, RSP) == Num(a) && top >= t - 1
    requires forall j: nat :: j < t ==> Popped(m, a + 8 * j, top - j)
    ensures var m' := RunCode(FreeCode(t), data, junk, m);
      && SameFrame(m, m') && Get(m', RSP) == Num(a + 8 * t)
      && Live(m'.mem, a + 8 * t) == Live(m.mem, a + 8 * t)
      && m'.heap == Without(m.heap, top, t)
      && m'.freed == m.freed + seq(t, j requires 0 <= j < t => top - j)
      && m'.next == m.next && m'.out == m.out
  {
    hide RunCode, RunInst, Live, Without;
    if t == 0 {
      NoneFree(m.heap, top);
      NoCode(data, junk, m);
    } else {
      assert forall j: nat :: j < t - 1 ==> Popped(m, a + 8 * j, top - j);
      FreeRun(t - 1, data, junk, m, a, top);
      var m1 := RunCode(FreeCode(t - 1), data, junk, m);
      RunAppend(FreeCode(t - 1), [Pop(Register(RDI)), CallTo(FreeVal)], data, junk, m);
      var at, id := a + 8 * (t - 1), top - (t - 1);
      assert Popped(m, at, id);
      FreeOneMore(m.heap, top, t - 1);
      LiveOfLive(m.mem, at, at);
      LiveOfLive(m1.mem, at, at);
      LiveOfLive(m.mem, at, at + 8);
      LiveOfLive(m1.mem, at, at + 8);
      LiveOfLive(m1.mem, at + 8, at + 8);
      PopFree(data, junk, m1, at, id);
    }
  }

  lemma PopFree(data: Data, junk: Junk, m: Mach, a: int, id: nat)
    requires m.ok && Get(m, RSP) == Num(a) && a in m.mem && m.mem[a] == Ptr(id) && id in m.heap
    ensures var m' := RunCode([Pop(Register(RDI)), CallTo(FreeVal)], data, junk, m);
      && SameFrame(m, m') && Get(m', RSP) == Num(a + 8) && m'.mem == Live(m.mem, a + 8)
      && m'.heap == m.heap - {id} && m'.freed == m.freed + [id] && m'.next == m.next && m'.out == m.out
  {
    hide RunCode, Live, Returned, VaValues, RuntimePrintln;
    var code := [Pop(Register(RDI)), CallTo(FreeVal)];
    assert code == [code[0]] + [code[1]];
    RunAppend([code[0]], [code[1]], data, junk, m);
    RunOne(code[0], data, junk, m);
    var m1 := Set(Set(m, RSP, Num(a + 8)), RDI, Ptr(id));
    assert RunCode([code[0]], data, junk, m) == m1;
    RunOne(code[1], data, junk, m1);
    CallReturns(m1.(heap := m.heap - {id}, freed := m.freed + [id]), junk(m.calls, RAX), junk);
  }

  // ----- one call -----

  // The frame of a call: the argument count in the first cell below %rbp, then the arguments.
  ghost predicate Framed(mem: Memory, b: int, id: nat, n: nat) {
    && Cell(b, 0) in mem && mem[Cell(b, 0)] == Num(n)
    && forall i: nat :: i < n ==> ArgCell(mem, b, id, i)
  }

  ghost predicate ArgCell(mem: Memory, b: int, id: nat, i: nat) {
    Cell(b, i + 1) in mem && mem[Cell(b, i + 1)] == Ptr(id + i)
  }

  lemma CountRun(n: nat, data: Data, junk: Junk, m: Mach, b: int)
    requires m.ok && Get(m, RSP) == Num(b)
    ensures var m' := RunCode([Mov(Imm(n), Register(RDI)), Push(Register(RDI))], data, junk, m);
      && SameFrame(m, m') && Get(m', RSP) == Num(b - 8) && m'.mem == m.mem[b - 8 := Num(n)]
      && m'.heap == m.heap && m'.next == m.next && m'.freed == m.freed && m'.out == m.out
  {
    hide RunCode;
    var code := [Mov(Imm(n), Register(RDI)), Push(Register(RDI))];
    assert code == [code[0]] + [code[1]];
    RunAppend([code[0]], [code[1]], data, junk, m);
    RunOne(code[0], data, junk, m);
    RunOne(code[1], data, junk, RunCode([code[0]], data, junk, m));
  }

  lemma ArgsFramed(mem: Memory, b: int, id: nat, n: nat)
    requires b - 8 in mem && mem[b - 8] == Num(n) && forall x :: x in mem ==> x >= b - 8
    ensures Framed(Pushed(mem, b - 8, id, n), b, id, n)
  {
    PushedCells(mem, b - 8, id, n);
    var p := Pushed(mem, b - 8, id, n);
    assert Live(p, b - 8) == mem;
    forall i: nat | i < n
      ensures ArgCell(p, b, id, i)
    {
      assert Cell(b - 8, i) == Cell(b, i + 1);
    }
  }

  lemma PrintRun(vs: seq<Val>, id: nat, data: Data, junk: Junk, m: Mach, b: int)
    requires m.ok && Get(m, RBP) == Num(b) && Get(m, RSP) == Num(b - 8 - 8 * |vs|)
    requires Framed(m.mem, b, id, |vs|) && Holding(m.heap, id, vs)
    ensures var m' := RunCode(LoadCode(|vs| + 1) + [CallTo(PrintLine)], data, junk, m);
      && SameFrame(m, m') && Get(m', RSP) == Get(m, RSP) && m'.mem == Live(m.mem, b - 8 - 8 * |vs|)
      && m'.heap == m.heap && m'.next == m.next && m'.freed == m.freed
      && m'.out == m.out + RuntimePrintln(AsPrinted(vs))
  {
    hide RunCode, RunInst, LoadCode, ArgReg, VaValues, Live, RuntimePrintln, Holding;
    var n := |vs|;
    forall i: nat | i < n + 1 && i < 6
      ensures Cell(b, i) in m.mem && m.mem[Cell(b, i)] == if i == 0 then Num(n) else Ptr(id + (i - 1))
    {
      assert i > 0 ==> ArgCell(m.mem, b, id, i - 1);
    }
    RunAppend(LoadCode(n + 1), [CallTo(PrintLine)], data, junk, m);
    LoadRun(n + 1, data, junk, m, b);
    var m1 := RunCode(LoadCode(n + 1), data, junk, m);
    assert Get(m1, ArgReg(0)) == Num(n);
    forall i: nat | i < n
      ensures VaArg(m1, i) == Some(Ptr(id + PrintOrder(n, i)))
    {
      if i < 5 {
        VaRegisters(m1, i);
        assert Get(m1, ArgReg(i + 1)) == Ptr(id + i);
      } else {
        var j := n - 1 - (i - 5);
        assert b - 8 - 8 * n + 8 * (i - 5) == Cell(b, j + 1);
        assert ArgCell(m.mem, b, id, j);
      }
    }
    assert Passed(m1, id, n);
    VaRun(m1, vs, id, n);
    assert AsPrinted(vs)[..n] == AsPrinted(vs);
    RunOne(CallTo(PrintLine), data, junk, m1);
    PrintCall(AsPrinted(vs), data, junk, m1);
  }

  lemma PrintCall(vs: seq<Val>, data: Data, junk: Junk, m: Mach)
    requires m.ok && Get(m, RSP).Num? && Get(m, ArgReg(0)) == Num(|vs|) && VaValues(m, |vs|) == Some(vs)
    ensures var m' := RunInst(CallTo(PrintLine), data, junk, m);
      AfterCall(m.(out := m.out + RuntimePrintln(vs)), m', junk(m.calls, RAX))
  {
    hide VaValues, RuntimePrintln, Live, Returned;
    CallReturns(m.(out := m.out + RuntimePrintln(vs)), junk(m.calls, RAX), junk);
  }

  // At the start of a top-level call %rsp equals %rbp.
  ghost predicate Ready(m: Mach, b: int) {
    m.ok && Get(m, RSP) == Get(m, RBP) == Num(b) && forall id :: id in m.heap ==> id < m.next
  }

  // The blocks of a call in the order in which they are freed.
  function FreeOrder(next: nat, n: nat): seq<nat> {
    seq(n, j requires 0 <= j < n => next + n - 1 - j)
  }

  // Everything up to the library call: the values exist and have been printed.
  lemma CallPrints(args: seq<Expr>, k: nat, data: Data, junk: Junk, m: Mach, b: int)
    requires forall i :: 0 <= i < |args| ==> Literal(args[i])
    requires Ready(m, b) && Covers(data, k, StringsOf(args))
    ensures var code := [Mov(Imm(|args|), Register(RDI)), Push(Register(RDI))] + ArgsCode(args, k)
        + (LoadCode(|args| + 1) + [CallTo(PrintLine)]);
      var m' := RunCode(code, data, junk, m);
      var rsp := b - 8 - 8 * |args|;
      && SameFrame(m, m') && Get(m', RSP) == Num(rsp) && Live(m'.mem, rsp) == m'.mem
      && Framed(m'.mem, b, m.next, |args|) && Live(m'.mem, b) == Live(m.mem, b)
      && m'.heap == Added(m.heap, m.next, ValuesOf(args)) && m'.next == m.next + |args|
      && m'.freed == m.freed && m'.out == m.out + RuntimePrintln(AsPrinted(ValuesOf(args)))
  {
    hide RunCode, RunInst, ArgsCode, LoadCode, Live, Added, Pushed, StringsOf, Covers, ValuesOf, RuntimePrintln;
    hide Framed, Holding;
    var n := |args|;
    var count := [Mov(Imm(n), Register(RDI)), Push(Register(RDI))];
    var printing := LoadCode(n + 1) + [CallTo(PrintLine)];
    RunAppend(count + ArgsCode(args, k), printing, data, junk, m);
    RunAppend(count, ArgsCode(args, k), data, junk, m);
    CountRun(n, data, junk, m, b);
    var m1 := RunCode(count, data, junk, m);
    ArgsRun(args, k, data, junk, m1, b - 8);
    var m2 := RunCode(ArgsCode(args, k), data, junk, m1);
    FrameBuilt(m, m1, m2, b, n);
    HeapBuilt(m.heap, m.next, ValuesOf(args));
    ValuesLength(args);
    PrintRun(ValuesOf(args), m.next, data, junk, m2, b);
    FrameLive(m2.mem, b, m.next, n);
  }

  lemma ValuesLength(args: seq<Expr>)
    requires forall i :: 0 <= i < |args| ==> Literal(args[i])
    ensures |ValuesOf(args)| == |args|
  {
  }

  lemma HeapBuilt(heap: Heap, id: nat, vs: seq<Val>)
    requires forall x :: x in heap ==> x < id
    ensures Holding(Added(heap, id, vs), id, vs)
    ensures Without(Added(heap, id, vs), id + |vs| - 1, |vs|) == heap
  {
    AddedValues(heap, id, vs);
  }

  lemma FrameBuilt(m: Mach, m1: Mach, m2: Mach, b: int, n: nat)
    requires m1.mem == m.mem[b - 8 := Num(n)]
    requires Live(m2.mem, b - 8 - 8 * n) == Pushed(Live(m1.mem, b - 8), b - 8, m.next, n)
    ensures Framed(m2.mem, b, m.next, n) && Live(m2.mem, b) == Live(m.mem, b)
  {
    var mid := Live(m1.mem, b - 8);
    ArgsFramed(mid, b, m.next, n);
    PushedCells(mid, b - 8, m.next, n);
    var p := Pushed(mid, b - 8, m.next, n);
    LiveOfLive(m2.mem, b - 8 - 8 * n, b);
    LiveOfLive(p, b - 8, b);
    LiveOfLive(m1.mem, b - 8, b);
    assert Live(m1.mem, b) == Live(m.mem, b);
    forall i: nat | i < n
      ensures ArgCell(m2.mem, b, m.next, i)
    {
      assert ArgCell(p, b, m.next, i);
      assert Cell(b, i + 1) in Live(m2.mem, b - 8 - 8 * n);
    }
    assert Cell(b, 0) in Live(m2.mem, b - 8 - 8 * n);
  }

  lemma FrameLive(mem: Memory, b: int, id: nat, n: nat)
    requires Framed(mem, b, id, n)
    ensures var live := Live(mem, b - 8 - 8 * n);
      Framed(live, b, id, n) && Live(live, b) == Live(mem, b) && Live(live, b - 8 - 8 * n) == live
  {
    var live := Live(mem, b - 8 - 8 * n);
    forall i: nat | i < n
      ensures ArgCell(live, b, id, i)
    {
      assert ArgCell(mem, b, id, i);
    }
  }

  // What follows the library call.
  function EndCode(n: nat): seq<Inst> {
    FreeCode(n) + [Add(Imm(8), Register(RSP))]
    + if StackArgs(n) > 0 then [Add(Imm(8 * StackArgs(n)), Register(RSP))] else []
  }

  lemma CallEnds(vs: seq<Val>, heap: Heap, id: nat, data: Data, junk: Junk, m: Mach, b: int)
    requires m.ok && Get(m, RSP) == Num(b - 8 - 8 * |vs|) && Framed(m.mem, b, id, |vs|)
    requires m.heap == Added(heap, id, vs) && forall x :: x in heap ==> x < id
    ensures var m' := RunCode(EndCode(|vs|), data, junk, m);
      && SameFrame(m, m') && Get(m', RSP) == Num(b + 8 * StackArgs(|vs|)) && Live(m'.mem, b) == Live(m.mem, b)
      && m'.heap == heap && m'.next == m.next && m'.freed == m.freed + FreeOrder(id, |vs|) && m'.out == m.out
      && b - 8 in m'.mem && m'.mem[b - 8] == Num(|vs|)
  {
    hide RunCode, RunInst, FreeCode, Live, Added, Framed, FreeOrder, Get;
    var n, extra := |vs|, StackArgs(|vs|);
    var last := if extra > 0 then [Add(Imm(8 * extra), Register(RSP))] else [];
    RunAppend(FreeCode(n) + [Add(Imm(8), Register(RSP))], last, data, junk, m);
    RunAppend(FreeCode(n), [Add(Imm(8), Register(RSP))], data, junk, m);
    ValuesFreed(vs, heap, id, data, junk, m, b);
    DropWords(1, data, junk, RunCode(FreeCode(n), data, junk, m), b - 8);
    DropWords(extra, data, junk, RunCode(FreeCode(n) + [Add(Imm(8), Register(RSP))], data, junk, m), b);
  }

  // Words are dropped from the stack by an addition, or by nothing if there are none.
  lemma DropWords(x: nat, data: Data, junk: Junk, m: Mach, a: int)
    requires m.ok && Get(m, RSP) == Num(a)
    ensures var m' := RunCode(if x > 0 then [Add(Imm(8 * x), Register(RSP))] else [], data, junk, m);
      SameFrame(m, m') && Get(m', RSP) == Num(a + 8 * x) && m' == m.(regs := m'.regs)
  {
    hide RunCode;
    if x > 0 {
      AddRun(8 * x, data, junk, m, a);
    } else {
      NoCode(data, junk, m);
    }
  }

  // The part of it that frees the values.
  lemma ValuesFreed(vs: seq<Val>, heap: Heap, id: nat, data: Data, junk: Junk, m: Mach, b: int)
    requires m.ok && Get(m, RSP) == Num(b - 8 - 8 * |vs|) && Framed(m.mem, b, id, |vs|)
    requires m.heap == Added(heap, id, vs) && forall x :: x in heap ==> x < id
    ensures var m' := RunCode(FreeCode(|vs|), data, junk, m);
      && SameFrame(m, m') && Get(m', RSP) == Num(b - 8) && Live(m'.mem, b) == Live(m.mem, b)
      && m'.heap == heap && m'.next == m.next && m'.freed == m.freed + FreeOrder(id, |vs|) && m'.out == m.out
      && b - 8 in m'.mem && m'.mem[b - 8] == Num(|vs|)
  {
    hide RunCode, RunInst, FreeCode, Live, Added, Framed, Without;
    var n := |vs|;
    FrameToPop(m, b, heap, id, vs);
    FreeRun(n, data, junk, m, b - 8 - 8 * n, id + n - 1);
    HeapBuilt(heap, id, vs);
    var m2 := RunCode(FreeCode(n), data, junk, m);
    LiveOfLive(m.mem, b - 8, b);
    LiveOfLive(m2.mem, b - 8, b);
    CountStays(m.mem, m2.mem, b, id, n);
    assert FreeOrder(id, n) == seq(n, j requires 0 <= j < n => id + n - 1 - j);
  }

  lemma CountStays(mem: Memory, mem': Memory, b: int, id: nat, n: nat)
    requires Framed(mem, b, id, n) && Live(mem', b - 8) == Live(mem, b - 8)
    ensures b - 8 in mem' && mem'[b - 8] == Num(n)
  {
    assert Cell(b, 0) in Live(mem', b - 8);
  }

  // One compiled call, whatever its number of arguments: it prints them, frees every value it
  // created, and moves %rsp up by one word for each argument after the fifth.
  lemma CallRun(args: seq<Expr>, k: nat, data: Data, junk: Junk, m: Mach, b: int)
    requires forall i :: 0 <= i < |args| ==> Literal(args[i])
    requires Ready(m, b) && Covers(data, k, StringsOf(args))
    ensures var m' := RunCode(CallCode(args, k), data, junk, m);
      && SameFrame(m, m') && Get(m', RSP) == Num(b + 8 * StackArgs(|args|))
      && Live(m'.mem, b) == Live(m.mem, b)
      && m'.heap == m.heap && m'.next == m.next + |args| && m'.freed == m.freed + FreeOrder(m.next, |args|)
      && m'.out == m.out + RuntimePrintln(AsPrinted(ValuesOf(args)))
      && b - 8 in m'.mem && m'.mem[b - 8] == Num(|args|)
  {
    hide RunCode, ArgsCode, LoadCode, FreeCode, Live, Added, StringsOf, Covers, ValuesOf, RuntimePrintln, Framed;
    hide FreeOrder;
    var n := |args|;
    var code := [Mov(Imm(n), Register(RDI)), Push(Register(RDI))] + ArgsCode(args, k) + (LoadCode(n + 1) + [CallTo(PrintLine)]);
    assert CallCode(args, k) == code + EndCode(n);
    RunAppend(code, EndCode(n), data, junk, m);
    CallPrints(args, k, data, junk, m, b);
    ValuesLength(args);
    CallEnds(ValuesOf(args), m.heap, m.next, data, junk, RunCode(code, data, junk, m), b);
  }

  lemma AddRun(d: int, data: Data, junk: Junk, m: Mach, a: int)
    requires m.ok && Get(m, RSP) == Num(a)
    ensures RunCode([Add(Imm(d), Register(RSP))], data, junk, m) == Set(m, RSP, Num(a + d))
  {
    RunOne(Add(Imm(d), Register(RSP)), data, junk, m);
  }

  lemma FrameToPop(m: Mach, b: int, heap: Heap, id: nat, vs: seq<Val>)
    requires Framed(m.mem, b, id, |vs|) && m.heap == Added(heap, id, vs)
    requires forall x :: x in heap ==> x < id
    ensures forall j: nat :: j < |vs| ==> Popped(m, b - 8 - 8 * |vs| + 8 * j, id + |vs| - 1 - j)
  {
    AddedValues(heap, id, vs);
    var n := |vs|;
    forall j: nat | j < n
      ensures Popped(m, b - 8 - 8 * n + 8 * j, id + n - 1 - j)
    {
      var i := n - 1 - j;
      assert ArgCell(m.mem, b, id, i);
      assert Cell(b, i + 1) == b - 8 - 8 * n + 8 * j;
    }
  }

  // A call leaves %rsp where it was exactly if it has at most five arguments.
  lemma StackBalance(args: seq<Expr>, k: nat, data: Data, junk: Junk, m: Mach, b: int)
    requires forall i :: 0 <= i < |args| ==> Literal(args[i])
    requires Ready(m, b) && Covers(data, k, StringsOf(args))
    ensures Ready(RunCode(CallCode(args, k), data, junk, m), b) <==> |args| <= 5
  {
    hide CallCode, RunCode, StringsOf, Covers;
    CallRun(args, k, data, junk, m, b);
  }

  // ----- whole programs -----

  // What the compiled program prints.
  function ProgramTrace(program: seq<Stmt>): Output
    requires PrintlnCalls(program)
  {
    if program == [] then []
    else ProgramTrace(program[..|program| - 1]) + RuntimePrintln(AsPrinted(ValuesOf(ArgsOf(program[|program| - 1]))))
  }

  predicate AtMostFive(program: seq<Stmt>)
    requires PrintlnCalls(program)
  {
    forall i :: 0 <= i < |program| ==> |ArgsOf(program[i])| <= 5
  }

  // Before and after every top-level call of a program %rsp equals %rbp, the stack from there up
  // is untouched and no value is left in the heap.
  lemma {:induction false} ProgramRun(program: seq<Stmt>, data: Data, junk: Junk, m: Mach, b: int)
    requires PrintlnCalls(program) && AtMostFive(program)
    requires Ready(m, b) && Covers(data, 0, ProgramStrings(program))
    ensures var m' := RunCode(ProgramCode(program), data, junk, m);
      && Ready(m', b) && SameFrame(m, m') && Live(m'.mem, b) == Live(m.mem, b)
      && m'.heap == m.heap && m'.out == m.out + ProgramTrace(program)
  {
    hide RunCode, CallCode, Live, StringsOf, Covers, RuntimePrintln, AsPrinted, FreeOrder;
    if program == [] {
      NoCode(data, junk, m);
    } else {
      var init, args := program[..|program| - 1], ArgsOf(program[|program| - 1]);
      var k := |ProgramStrings(init)|;
      CoversSplit(data, 0, ProgramStrings(init), StringsOf(args));
      ProgramRun(init, data, junk, m, b);
      RunAppend(ProgramCode(init), CallCode(args, k), data, junk, m);
      CallRun(args, k, data, junk, RunCode(ProgramCode(init), data, junk, m), b);
    }
  }

  predicate LibraryOnly(code: seq<Inst>) {
    forall i :: 0 <= i < |code| ==>
      !code[i].Ret? && (code[i].CallTo? ==> code[i].target in {CreateInt, CreateStr, PrintLine, FreeVal})
  }

  lemma {:induction false} ArgsLibraryOnly(args: seq<Expr>, k: nat)
    requires forall i :: 0 <= i < |args| ==> Literal(args[i])
    ensures LibraryOnly(ArgsCode(args, k))
  {
    if args != [] {
      ArgsLibraryOnly(args[..|args| - 1], k);
    }
  }

  lemma {:induction false} LoadLibraryOnly(n: nat)
    ensures LibraryOnly(LoadCode(n)) && LibraryOnly(FreeCode(n))
  {
    if n != 0 {
      LoadLibraryOnly(n - 1);
    }
  }

  lemma {:induction false} ProgramLibraryOnly(program: seq<Stmt>)
    requires PrintlnCalls(program)
    ensures LibraryOnly(ProgramCode(program))
  {
    hide ArgsCode, LoadCode, FreeCode, StringsOf;
    if program != [] {
      ProgramLibraryOnly(program[..|program| - 1]);
      var args := ArgsOf(program[|program| - 1]);
      ArgsLibraryOnly(args, |ProgramStrings(program[..|program| - 1])|);
      LoadLibraryOnly(|args| + 1);
      LoadLibraryOnly(|args|);
    }
  }

  // ----- the lines of a compiled file -----

  lemma {:induction false} NoSuchLabel(lines: seq<Node>, name: Symbol)
    requires forall i :: 0 <= i < |lines| ==> lines[i] != Label(name)
    ensures LabelIndex(lines, name).None?
  {
    if lines != [] {
      NoSuchLabel(lines[1..], name);
    }
  }

  lemma {:induction false} LabelAt(lines: seq<Node>, name: Symbol, i: nat)
    requires i < |lines| && lines[i] == Label(name) && forall j :: 0 <= j < i ==> lines[j] != Label(name)
    ensures LabelIndex(lines, name) == Some(i)
  {
    if i != 0 {
      LabelAt(lines[1..], name, i - 1);
    }
  }

  // The body of main without its final return.
  function MainCode(program: seq<Stmt>): seq<Inst>
    requires PrintlnCalls(program)
  {
    [Push(Register(RBP)), Mov(Register(RSP), Register(RBP))] + ProgramCode(program) + [Pop(Register(RBP))]
  }

  lemma FileLayout(program: seq<Stmt>)
    requires PrintlnCalls(program)
    ensures var lines, n := FileLines(program), |MainCode(program)|;
      && |lines| == 7 + n && lines[1] == Label(Start) && lines[2] == Instruction(CallTo(Main))
      && lines[3..4] == Instructions([Mov(Imm(0), Register(RDI))]) && lines[4] == Instruction(CallTo(Exit))
      && lines[5] == Label(Main) && lines[6..6 + n] == Instructions(MainCode(program)) && lines[6 + n] == Instruction(Ret)
      && LabelIndex(lines, Start) == Some(1) && LabelIndex(lines, Main) == Some(5)
      && (forall name :: name != Start && name != Main ==> LabelIndex(lines, name).None?)
  {
    hide ProgramCode, LabelIndex;
    var lines, n := FileLines(program), |MainCode(program)|;
    var tail := [Push(Register(RBP)), Mov(Register(RSP), Register(RBP))] + ProgramCode(program) + [Pop(Register(RBP)), Ret];
    assert tail == MainCode(program) + [Ret];
    assert lines[6..] == Instructions(tail);
    LabelAt(lines, Start, 1);
    LabelAt(lines, Main, 5);
    forall name | name != Start && name != Main
      ensures LabelIndex(lines, name).None?
    {
      NoSuchLabel(lines, name);
    }
  }

  lemma MainRun(program: seq<Stmt>, data: Data, junk: Junk, m: Mach, a: int)
    requires PrintlnCalls(program) && AtMostFive(program) && Covers(data, 0, ProgramStrings(program))
    requires m.ok && Get(m, RSP) == Num(a) && a in m.mem && forall id :: id in m.heap ==> id < m.next
    ensures var m' := RunCode(MainCode(program), data, junk, m);
      && SameFrame(m, m') && Get(m', RSP) == Num(a) && a in m'.mem && m'.mem[a] == m.mem[a]
      && m'.heap == m.heap && m'.out == m.out + ProgramTrace(program)
  {
    hide RunCode, ProgramCode, ProgramStrings, ProgramTrace, Covers, Live;
    var setup, body, restore := [Push(Register(RBP)), Mov(Register(RSP), Register(RBP))], ProgramCode(program), [Pop(Register(RBP))];
    RunAppend(setup + body, restore, data, junk, m);
    RunAppend(setup, body, data, junk, m);
    SetupRun(data, junk, m, a);
    var m1 := RunCode(setup, data, junk, m);
    ProgramRun(program, data, junk, m1, a - 8);
    var m2 := RunCode(body, data, junk, m1);
    LiveOfLive(m1.mem, a - 8, a - 8);
    LiveOfLive(m2.mem, a - 8, a - 8);
    LiveKeeps(m1.mem, a - 8, a);
    LiveKeeps(m2.mem, a - 8, a);
    RunOne(Pop(Register(RBP)), data, junk, m2);
  }

  lemma LiveKeeps(mem: Memory, a: int, x: int)
    requires x >= a
    ensures x in Live(mem, a) <==> x in mem
    ensures x in mem ==> Live(mem, a)[x] == mem[x]
  {
  }

  lemma SetupRun(data: Data, junk: Junk, m: Mach, a: int)
    requires m.ok && Get(m, RSP) == Num(a)
    ensures RunCode([Push(Register(RBP)), Mov(Register(RSP), Register(RBP))], data, junk, m)
         == Set(Set(m.(mem := m.mem[a - 8 := Get(m, RBP)]), RSP, Num(a - 8)), RBP, Num(a - 8))
  {
    hide RunCode;
    var code := [Push(Register(RBP)), Mov(Register(RSP), Register(RBP))];
    assert code == [code[0]] + [code[1]];
    RunAppend([code[0]], [code[1]], data, junk, m);
    RunOne(code[0], data, junk, m);
    RunOne(code[1], data, junk, RunCode([code[0]], data, junk, m));
  }

  // The number of steps a compiled file takes.
  function StepCount(program: seq<Stmt>): nat
    requires PrintlnCalls(program)
  {
    |MainCode(program)| + 6
  }

  // Whatever the registers and the stack hold at _start and whatever library calls leave in the
  // registers: the file halts with exit status 0, has printed the trace of the program, has
  // freed every value it created exactly once, and has restored %rbp, %rbx and %rsp.
  lemma FileRun(program: seq<Stmt>, data: Data, junk: Junk, m: Mach, s: int)
    requires PrintlnCalls(program) && AtMostFive(program) && Covers(data, 0, ProgramStrings(program))
    requires m.ok && Get(m, RSP) == Num(s) && m.heap == map[] && m.next == 0 && m.freed == [] && m.out == []
    ensures LabelIndex(FileLines(program), Start) == Some(1)
    ensures var end := Steps(StepCount(program), FileLines(program), data, junk, Running(1, m));
      && end.Halted? && end.code == 0 && end.final.out == ProgramTrace(program)
      && end.final.heap == map[] && Ledger(map[], end.final.next, end.final.freed)
      && Get(end.final, RSP) == Num(s) && Get(end.final, RBP) == Get(m, RBP) && Get(end.final, RBX) == Get(m, RBX)
  {
    hide RunCode, MainCode, FileLines, ProgramTrace, ProgramStrings, Covers, LabelIndex, Library, Steps, Step, Straight;
    var lines, code := FileLines(program), MainCode(program);
    var n := |code|;
    FileLayout(program);
    EmptyLedger();
    hide Ledger;
    // the label, the call of main, the label of main
    var m1 := Set(m.(mem := m.mem[s - 8 := Code(3)]), RSP, Num(s - 8));
    Begin(lines, data, junk, m, s);
    // the body of main
    MainRun(program, data, junk, m1, s - 8);
    LedgerKept(code, data, junk, m1);
    MainIsStraight(program);
    StraightRun(code, lines, data, junk, 6, m1);
    var m2 := RunCode(code, data, junk, m1);
    StepsAdd(3, n, lines, data, junk, Running(1, m));
    assert Steps(3 + n, lines, data, junk, Running(1, m)) == Running(6 + n, m2);
    // the return, the status and the exit
    Finish(lines, data, junk, m2, s, 6 + n);
    StepsAdd(3 + n, 3, lines, data, junk, Running(1, m));
  }

  lemma EmptyLedger()
    ensures Ledger(map[], 0, [])
  {
  }

  lemma Begin(lines: seq<Node>, data: Data, junk: Junk, m: Mach, s: int)
    requires |lines| > 6 && lines[1] == Label(Start) && lines[2] == Instruction(CallTo(Main)) && lines[5] == Label(Main)
    requires LabelIndex(lines, Main) == Some(5) && Get(m, RSP) == Num(s)
    ensures Steps(3, lines, data, junk, Running(1, m)) == Running(6, Set(m.(mem := m.mem[s - 8 := Code(3)]), RSP, Num(s - 8)))
  {
    hide LabelIndex, RunInst;
    var start := Running(1, m);
    assert Steps(1, lines, data, junk, start) == Step(lines, data, junk, Steps(0, lines, data, junk, start));
    assert Steps(2, lines, data, junk, start) == Step(lines, data, junk, Running(2, m));
  }

  lemma MainIsStraight(program: seq<Stmt>)
    requires PrintlnCalls(program)
    ensures forall i :: 0 <= i < |MainCode(program)| ==> Straight(FileLines(program), MainCode(program)[i])
  {
    hide FileLines, LabelIndex;
    FileLayout(program);
    ProgramLibraryOnly(program);
    hide ProgramCode;
    assert LibraryOnly(MainCode(program));
    forall i | 0 <= i < |MainCode(program)|
      ensures Straight(FileLines(program), MainCode(program)[i])
    {
    }
  }

  lemma Finish(lines: seq<Node>, data: Data, junk: Junk, m: Mach, s: int, pc: nat)
    requires |lines| > pc > 4 && lines[pc] == Instruction(Ret)
    requires lines[3..4] == Instructions([Mov(Imm(0), Register(RDI))]) && lines[4] == Instruction(CallTo(Exit))
    requires LabelIndex(lines, Exit).None?
    requires m.ok && Get(m, RSP) == Num(s - 8) && s - 8 in m.mem && m.mem[s - 8] == Code(3)
    ensures Steps(3, lines, data, junk, Running(pc, m)) == Halted(0, Set(Set(m, RSP, Num(s)), RDI, Num(0)))
  {
    hide LabelIndex;
    var start := Running(pc, m);
    assert lines[3] == lines[3..4][0] == Instruction(Mov(Imm(0), Register(RDI)));
    assert Steps(1, lines, data, junk, start) == Step(lines, data, junk, Steps(0, lines, data, junk, start));
    var m1 := Set(m, RSP, Num(s));
    assert Steps(1, lines, data, junk, start) == Running(3, m1);
    assert Steps(2, lines, data, junk, start) == Step(lines, data, junk, Running(3, m1));
  }

  // ----- the data section -----

  // The assembler collects the labelled strings; a label defined twice is an error.
  function Assemble(lines: seq<DataLabel>): Option<Data> {
    if lines == [] then Some(map[])
    else
      var init, last := Assemble(lines[..|lines| - 1]), lines[|lines| - 1];
      var s := ReadString(last.param);
      if init.None? || s.None? || last.directive != "string" || last.name in init.value then None
      else Some(init.value[last.name := s.value])
  }

  // No backslash, and none of the NUL characters that no literal of a C program can hold.
  predicate Plain(s: string) { NoBackslash(s) && '\0' !in s }

  predicate AllPlain(strings: seq<string>) { forall i :: 0 <= i < |strings| ==> Plain(strings[i]) }

  // The string a program sees for a literal; the literal itself where the assembler rejects it.
  function Seen(s: string): string {
    var r := ReadString(Quoted(s));
    if r.None? then s else CString(r.value)
  }

  function AllSeen(strings: seq<string>): seq<string> {
    seq(|strings|, i requires 0 <= i < |strings| => Seen(strings[i]))
  }

  lemma SeenAsWritten(s: string)
    ensures ReadString(Quoted(s)).Some? && Seen(s) == s <==> Plain(s)
  {
    QuotingIsFaithful(s);
    assert Quoted(s)[1..] == Tail(s);
    BackslashShortens(s);
  }

  lemma LabelsDiffer(i: nat, j: nat)
    ensures LabelName(i) == LabelName(j) ==> i == j
  {
    if LabelName(i) == LabelName(j) {
      assert LabelName(i)[3..] == Decimal.Unsigned(i) && LabelName(j)[3..] == Decimal.Unsigned(j);
      Decimal.UnsignedInjective(i, j);
    }
  }

  // The data section of plain strings assembles. If the data section assembles at all, each
  // label stands for what is seen of its literal.
  lemma {:induction false} DataAssembles(strings: seq<string>)
    ensures var d := Assemble(DataLines(strings, 0));
      && (AllPlain(strings) ==> d.Some?)
      && (d.Some? ==> Covers(d.value, 0, AllSeen(strings)))
      && (d.Some? && Covers(d.value, 0, strings) <==> AllPlain(strings))
      && (d.Some? ==> forall name :: name in d.value ==> exists i: nat :: i < |strings| && name == LabelName(i))
  {
    hide ReadString, LabelName, Quoted, Plain, CString;
    if strings != [] {
      var n := |strings| - 1;
      var init := strings[..n];
      var lines := DataLines(strings, 0);
      assert lines[..n] == DataLines(init, 0);
      DataAssembles(init);
      SeenAsWritten(strings[n]);
      var d0, d := Assemble(DataLines(init, 0)), Assemble(lines);
      forall i: nat
        ensures LabelName(i) == LabelName(n) ==> i == n
      {
        LabelsDiffer(i, n);
      }
      assert AllPlain(strings) <==> AllPlain(init) && Plain(strings[n]) by {
        assert forall i :: 0 <= i < n ==> init[i] == strings[i];
      }
      if d.Some? {
        assert d.value == d0.value[LabelName(n) := ReadString(Quoted(strings[n])).value];
        OneMoreCovered(d0.value, d.value, strings);
      }
    }
  }

  lemma OneMoreCovered(d0: Data, d: Data, strings: seq<string>)
    requires strings != [] && ReadString(Quoted(strings[|strings| - 1])).Some?
    requires d == d0[LabelName(|strings| - 1) := ReadString(Quoted(strings[|strings| - 1])).value]
    requires forall i: nat :: LabelName(i) == LabelName(|strings| - 1) ==> i == |strings| - 1
    requires Covers(d0, 0, AllSeen(strings[..|strings| - 1]))
    ensures Covers(d, 0, AllSeen(strings))
    ensures Covers(d, 0, strings)
       <==> Covers(d0, 0, strings[..|strings| - 1]) && Seen(strings[|strings| - 1]) == strings[|strings| - 1]
  {
    hide ReadString, LabelName, Quoted, CString;
    var n := |strings| - 1;
    var init := strings[..n];
    forall i: nat | i < n + 1
      ensures Holds(d, 0 + i, AllSeen(strings)[i])
      ensures i < n ==> (Holds(d, 0 + i, strings[i]) <==> Holds(d0, 0 + i, init[i]))
    {
      assert i < n ==> Holds(d0, 0 + i, AllSeen(init)[i]);
    }
    if Covers(d, 0, strings) {
      assert Holds(d, 0 + n, strings[n]);
      forall i: nat | i < n
        ensures Holds(d0, 0 + i, init[i])
      {
        assert Holds(d, 0 + i, strings[i]);
      }
    }
    if Covers(d0, 0, init) && Seen(strings[n]) == strings[n] {
      forall i: nat | i < n + 1
        ensures Holds(d, 0 + i, strings[i])
      {
        assert i < n ==> Holds(d0, 0 + i, init[i]);
      }
    }
  }
}
