/**
  The x86-64 back end (src/compile-x86_64.c). The functions give the instructions a program
  compiles to; the methods of the compiler object build the assembly tree, the data labels and
  the label counter step by step and are proved to produce exactly those.
*/
module Compile {
  import opened Ast
  import opened Asm
  import Decimal

  datatype DataLabel = DataLabel(name: string, directive: string, param: string)

  predicate Literal(e: Expr) { e.IntLit? || e.StrLit? }

  // A call the back end can translate; println is its only built-in.
  predicate PrintlnCall(s: Stmt) {
    s.ExprStmt? && s.e.Call? && s.e.callee == "println" && forall i :: 0 <= i < |s.e.args| ==> Literal(s.e.args[i])
  }

  predicate PrintlnCalls(program: seq<Stmt>) {
    forall i :: 0 <= i < |program| ==> PrintlnCall(program[i])
  }

  function ArgsOf(s: Stmt): (args: seq<Expr>)
    requires PrintlnCall(s)
    ensures forall i :: 0 <= i < |args| ==> Literal(args[i])
  {
    s.e.args
  }

  // The programs that compile. Unless built with NDEBUG, the compiler also asserts argc < 3.
  predicate Accepted(program: seq<Stmt>, asserts: bool) {
    forall i :: 0 <= i < |program| ==> PrintlnCall(program[i]) && (asserts ==> |ArgsOf(program[i])| < 3)
  }

  function StringsOf(args: seq<Expr>): seq<string> {
    if args == [] then []
    else StringsOf(args[..|args| - 1]) + (if args[|args| - 1].StrLit? then [args[|args| - 1].s] else [])
  }

  function LabelName(k: nat): string { ".DL" + Decimal.Unsigned(k) }

  function DataLines(strings: seq<string>, k: nat): seq<DataLabel> {
    seq(|strings|, i requires 0 <= i < |strings| => DataLabel(LabelName(k + i), "string", Quoted(strings[i])))
  }

  function ExprCode(e: Expr, k: nat): seq<Inst>
    requires Literal(e)
  {
    match e
    case IntLit(n) => [Mov(Imm(n), Register(RDI)), CallTo(CreateInt)]
    case StrLit(_) => [Mov(ImmLabel(LabelName(k)), Register(RDI)), CallTo(CreateStr)]
  }

  // Creates and pushes each argument; k is the number of labels used before.
  function ArgsCode(args: seq<Expr>, k: nat): seq<Inst>
    requires forall i :: 0 <= i < |args| ==> Literal(args[i])
  {
    if args == [] then []
    else
      var init := args[..|args| - 1];
      ArgsCode(init, k) + ExprCode(args[|args| - 1], k + |StringsOf(init)|) + [Push(Register(RAX))]
  }

  // The parameter registers of the System V AMD64 ABI, section 3.2.3.
  function ArgReg(i: nat): Reg
    requires i < 6
  {
    [RDI, RSI, RDX, RCX, R8, R9][i]
  }

  function LoadCode(n: nat): seq<Inst> {
    if n == 0 then []
    else LoadCode(n - 1) + if n - 1 <= 5 then [Mov(Offset(-8 * n, RBP), Register(ArgReg(n - 1)))] else []
  }

  function FreeCode(n: nat): seq<Inst> {
    if n == 0 then [] else FreeCode(n - 1) + [Pop(Register(RDI)), CallTo(FreeVal)]
  }

  // The number of arguments that find no parameter register.
  function StackArgs(argc: nat): nat { if argc > 5 then argc - 5 else 0 }

  function CallCode(args: seq<Expr>, k: nat): seq<Inst>
    requires forall i :: 0 <= i < |args| ==> Literal(args[i])
  {
    [Mov(Imm(|args|), Register(RDI)), Push(Register(RDI))] + ArgsCode(args, k) + LoadCode(|args| + 1)
    + [CallTo(PrintLine)] + FreeCode(|args|) + [Add(Imm(8), Register(RSP))]
    + if StackArgs(|args|) > 0 then [Add(Imm(8 * StackArgs(|args|)), Register(RSP))] else []
  }

  function ProgramStrings(program: seq<Stmt>): seq<string>
    requires PrintlnCalls(program)
  {
    if program == [] then []
    else ProgramStrings(program[..|program| - 1]) + StringsOf(ArgsOf(program[|program| - 1]))
  }

  function ProgramCode(program: seq<Stmt>): seq<Inst>
    requires PrintlnCalls(program)
  {
    if program == [] then []
    else
      var init := program[..|program| - 1];
      ProgramCode(init) + CallCode(ArgsOf(program[|program| - 1]), |ProgramStrings(init)|)
  }

  // _start calls main, exits with 0; main sets up its frame, runs the calls, restores, returns.
  function FileLines(program: seq<Stmt>): seq<Node>
    requires PrintlnCalls(program)
  {
    [Globl(Start), Label(Start)]
    + Instructions([CallTo(Main), Mov(Imm(0), Register(RDI)), CallTo(Exit)])
    + [Label(Main)]
    + Instructions([Push(Register(RBP)), Mov(Register(RSP), Register(RBP))] + ProgramCode(program) + [Pop(Register(RBP)), Ret])
  }

  // ----- building the tree -----

  lemma Built(nodes: seq<Node>, code: seq<Inst>, node: Node, more: seq<Inst>)
    requires LinesOf(nodes) == Instructions(code) && Lines(node) == Instructions(more)
    ensures LinesOf(nodes + [node]) == Instructions(code + more)
  {
    LinesOfPush(nodes, node);
  }

  lemma NothingYet(k: nat)
    ensures LinesOf([]) == Instructions([]) == [] && StringsOf([]) == [] && DataLines([], k) == []
  {
  }

  // asm_push_inst_*: one more instruction in the array.
  method PushInst(nodes: seq<Node>, inst: Inst, ghost code: seq<Inst>) returns (nodes': seq<Node>)
    requires LinesOf(nodes) == Instructions(code)
    ensures LinesOf(nodes') == Instructions(code + [inst])
  {
    nodes' := nodes + [Instruction(inst)];
    Built(nodes, code, Instruction(inst), [inst]);
  }

  method LoadArgs(argc: nat, nodes: seq<Node>, ghost code: seq<Inst>) returns (nodes': seq<Node>)
    requires LinesOf(nodes) == Instructions(code)
    ensures LinesOf(nodes') == Instructions(code + LoadCode(argc))
  {
    nodes' := nodes;
    assert code + [] == code;
    for i := 0 to argc
      invariant LinesOf(nodes') == Instructions(code + LoadCode(i))
    {
      if i <= 5 {
        nodes' := PushInst(nodes', Mov(Offset(-8 * (i + 1), RBP), Register(ArgReg(i))), code + LoadCode(i));
        assert code + LoadCode(i) + [Mov(Offset(-8 * (i + 1), RBP), Register(ArgReg(i)))] == code + LoadCode(i + 1);
      } else {
        assert LoadCode(i) + [] == LoadCode(i);
      }
    }
  }

  method FreeValues(argc: nat, nodes: seq<Node>, ghost code: seq<Inst>) returns (nodes': seq<Node>)
    requires LinesOf(nodes) == Instructions(code) && argc >= 1
    ensures LinesOf(nodes') == Instructions(code + FreeCode(argc - 1) + [Add(Imm(8), Register(RSP))])
  {
    nodes' := nodes;
    assert code + FreeCode(0) == code;
    for i := 1 to argc
      invariant LinesOf(nodes') == Instructions(code + FreeCode(i - 1))
    {
      ghost var before := code + FreeCode(i - 1);
      nodes' := PushInst(nodes', Pop(Register(RDI)), before);
      nodes' := PushInst(nodes', CallTo(FreeVal), before + [Pop(Register(RDI))]);
      assert before + [Pop(Register(RDI))] + [CallTo(FreeVal)] == code + FreeCode(i);
    }
    nodes' := PushInst(nodes', Add(Imm(8), Register(RSP)), code + FreeCode(argc - 1));
  }

  class Compiler {
    var lblCount: nat
    var data: seq<DataLabel>

    constructor ()
      ensures lblCount == 0 && data == []
    {
      lblCount, data := 0, [];
    }

    // None stands for a fatal error, which ends the compiler.
    method CompileExpr(e: Expr) returns (r: Option<Node>)
      modifies this
      ensures r.Some? <==> Literal(e)
      ensures r.Some? ==>
        && Lines(r.value) == Instructions(ExprCode(e, old(lblCount)))
        && data == old(data) + DataLines(StringsOf([e]), old(lblCount))
        && lblCount == old(lblCount) + |StringsOf([e])|
    {
      var nodes: seq<Node> := [];
      match e
      case IntLit(n) =>
        nodes := PushInst(nodes, Mov(Imm(n), Register(RDI)), []);
        nodes := PushInst(nodes, CallTo(CreateInt), [] + [Mov(Imm(n), Register(RDI))]);
        r := Some(InstArray(nodes));
      case StrLit(s) =>
        var name := LabelName(lblCount);
        lblCount := lblCount + 1;
        var quoted := Quote(s);
        data := data + [DataLabel(name, "string", quoted)];
        nodes := PushInst(nodes, Mov(ImmLabel(name), Register(RDI)), []);
        nodes := PushInst(nodes, CallTo(CreateStr), [] + [Mov(ImmLabel(name), Register(RDI))]);
        r := Some(InstArray(nodes));
        assert StringsOf([e]) == [s];
      case _ =>
        r := None;
    }

    method CompileArgs(args: seq<Expr>, nodes: seq<Node>, ghost code: seq<Inst>)
      returns (r: Option<seq<Node>>, stackArgs: nat)
      requires LinesOf(nodes) == Instructions(code)
      modifies this
      ensures r.Some? <==> forall i :: 0 <= i < |args| ==> Literal(args[i])
      ensures r.Some? ==>
        && LinesOf(r.value) == Instructions(code + [Mov(Imm(|args|), Register(RDI)), Push(Register(RDI))] + ArgsCode(args, old(lblCount)))
        && stackArgs == StackArgs(|args|)
        && data == old(data) + DataLines(StringsOf(args), old(lblCount))
        && lblCount == old(lblCount) + |StringsOf(args)|
    {
      hide ExprCode, StringsOf, DataLines, LinesOf, Instructions, Literal;
      NothingYet(lblCount);
      var nodes' := PushInst(nodes, Mov(Imm(|args|), Register(RDI)), code);
      nodes' := PushInst(nodes', Push(Register(RDI)), code + [Mov(Imm(|args|), Register(RDI))]);
      ghost var start := code + [Mov(Imm(|args|), Register(RDI)), Push(Register(RDI))];
      assert code + [Mov(Imm(|args|), Register(RDI))] + [Push(Register(RDI))] == start;
      assert start + [] == start && data + [] == data;
      stackArgs := 0;
      for i := 0 to |args|
        invariant forall j :: 0 <= j < i ==> Literal(args[j])
        invariant LinesOf(nodes') == Instructions(start + ArgsCode(args[..i], old(lblCount)))
        invariant stackArgs == StackArgs(i)
        invariant data == old(data) + DataLines(StringsOf(args[..i]), old(lblCount))
        invariant lblCount == old(lblCount) + |StringsOf(args[..i])|
      {
        ghost var k := lblCount;
        var e := CompileExpr(args[i]);
        if e.None? {
          return None, 0;
        }
        ghost var before := start + ArgsCode(args[..i], old(lblCount));
        Built(nodes', before, e.value, ExprCode(args[i], k));
        nodes' := PushInst(nodes' + [e.value], Push(Register(RAX)), before + ExprCode(args[i], k));
        if i + 1 > 5 {
          stackArgs := stackArgs + 1;
        }
        assert args[..i + 1][..i] == args[..i];
        assert before + ExprCode(args[i], k) + [Push(Register(RAX))] == start + ArgsCode(args[..i + 1], old(lblCount));
        StringsSplit(args, i);
        DataSplit(StringsOf(args[..i]), StringsOf([args[i]]), old(lblCount));
      }
      assert args[..|args|] == args;
      r := Some(nodes');
    }

    method CompileCall(e: Expr, asserts: bool) returns (r: Option<Node>)
      modifies this
      ensures r.Some? <==> PrintlnCall(ExprStmt(e)) && (asserts ==> |e.args| < 3)
      ensures r.Some? ==>
        && Lines(r.value) == Instructions(CallCode(e.args, old(lblCount)))
        && data == old(data) + DataLines(StringsOf(e.args), old(lblCount))
        && lblCount == old(lblCount) + |StringsOf(e.args)|
    {
      hide ArgsCode, LoadCode, FreeCode, StringsOf, DataLines, LinesOf, Instructions, Literal;
      NothingYet(lblCount);
      if !e.Call? || (asserts && |e.args| >= 3) || e.callee != "println" {
        return None;
      }
      var argc := |e.args|;
      var nodes, stackArgs := CompileArgs(e.args, [], []);
      if nodes.None? {
        return None;
      }
      ghost var prologue := [] + [Mov(Imm(argc), Register(RDI)), Push(Register(RDI))] + ArgsCode(e.args, old(lblCount));
      var all := LoadArgs(argc + 1, nodes.value, prologue);
      all := PushInst(all, CallTo(PrintLine), prologue + LoadCode(argc + 1));
      ghost var called := prologue + LoadCode(argc + 1) + [CallTo(PrintLine)];
      all := FreeValues(argc + 1, all, called);
      ghost var freed := called + FreeCode(argc) + [Add(Imm(8), Register(RSP))];
      if stackArgs > 0 {
        all := PushInst(all, Add(Imm(8 * stackArgs), Register(RSP)), freed);
      }
      assert CallCode(e.args, old(lblCount))
          == freed + if StackArgs(argc) > 0 then [Add(Imm(8 * StackArgs(argc)), Register(RSP))] else [];
      assert freed + [] == freed;
      r := Some(InstArray(all));
    }

    // x86_64_compile_root for a fresh compilation context
    method CompileRoot(program: seq<Stmt>, asserts: bool) returns (r: Option<Node>)
      requires lblCount == 0 && data == []
      modifies this
      ensures r.Some? <==> Accepted(program, asserts)
      ensures r.Some? ==> Lines(r.value) == FileLines(program) && data == DataLines(ProgramStrings(program), 0)
    {
      hide CallCode, StringsOf, DataLines, LinesOf, Instructions;
      NothingYet(0);
      var head := [Globl(Start), Label(Start), Instruction(CallTo(Main)),
                   Instruction(Mov(Imm(0), Register(RDI))), Instruction(CallTo(Exit)), Label(Main)];
      var nodes: seq<Node> := [];
      nodes := PushInst(nodes, Push(Register(RBP)), []);
      nodes := PushInst(nodes, Mov(Register(RSP), Register(RBP)), [] + [Push(Register(RBP))]);
      ghost var start := [Push(Register(RBP)), Mov(Register(RSP), Register(RBP))];
      assert start + [] == start && [] + [Push(Register(RBP))] + [Mov(Register(RSP), Register(RBP))] == start;
      for i := 0 to |program|
        invariant Accepted(program[..i], asserts)
        invariant LinesOf(nodes) == Instructions(start + ProgramCode(program[..i]))
        invariant data == DataLines(ProgramStrings(program[..i]), 0) && lblCount == |ProgramStrings(program[..i])|
      {
        if !program[i].ExprStmt? {
          return None;
        }
        ghost var k := lblCount;
        var node := CompileCall(program[i].e, asserts);
        if node.None? {
          return None;
        }
        ghost var call := CallCode(ArgsOf(program[i]), k);
        Built(nodes, start + ProgramCode(program[..i]), node.value, call);
        nodes := nodes + [node.value];
        assert program[..i + 1][..i] == program[..i];
        assert start + ProgramCode(program[..i]) + call == start + ProgramCode(program[..i + 1]);
        DataSplit(ProgramStrings(program[..i]), StringsOf(ArgsOf(program[i])), 0);
      }
      assert program[..|program|] == program;
      ghost var body := start + ProgramCode(program);
      nodes := PushInst(nodes, Pop(Register(RBP)), body);
      nodes := PushInst(nodes, Ret, body + [Pop(Register(RBP))]);
      r := Some(Root(head + nodes));
      assert body + [Pop(Register(RBP))] + [Ret] == body + [Pop(Register(RBP)), Ret];
      FilePrints(head, nodes, body + [Pop(Register(RBP)), Ret]);
    }
  }

  lemma FilePrints(head: seq<Node>, nodes: seq<Node>, code: seq<Inst>)
    requires head == [Globl(Start), Label(Start), Instruction(CallTo(Main)),
                      Instruction(Mov(Imm(0), Register(RDI))), Instruction(CallTo(Exit)), Label(Main)]
    requires LinesOf(nodes) == Instructions(code)
    ensures Lines(Root(head + nodes))
         == [Globl(Start), Label(Start)]
            + Instructions([CallTo(Main), Mov(Imm(0), Register(RDI)), CallTo(Exit)])
            + [Label(Main)] + Instructions(code)
  {
    hide LinesOf;
    LinesOfAppend(head, nodes);
    LeavesPrint(head);
  }

  lemma StringsSplit(args: seq<Expr>, i: nat)
    requires i < |args|
    ensures StringsOf(args[..i + 1]) == StringsOf(args[..i]) + StringsOf([args[i]])
  {
    assert args[..i + 1][..i] == args[..i];
    assert [args[i]][..0] == [];
  }

  lemma DataSplit(a: seq<string>, b: seq<string>, k: nat)
    ensures DataLines(a + b, k) == DataLines(a, k) + DataLines(b, k + |a|)
  {
  }

  lemma {:induction false} LinesOfAppend(a: seq<Node>, b: seq<Node>)
    ensures LinesOf(a + b) == LinesOf(a) + LinesOf(b)
  {
    if b == [] {
      assert a + b == a;
    } else {
      var init, last := b[..|b| - 1], b[|b| - 1];
      hide Lines;
      LinesOfAppend(a, init);
      assert b == init + [last] && a + b == (a + init) + [last];
      LinesOfPush(a + init, last);
      LinesOfPush(init, last);
    }
  }

  lemma {:induction false} LeavesPrint(nodes: seq<Node>)
    requires forall i :: 0 <= i < |nodes| ==> !nodes[i].InstArray? && !nodes[i].Root?
    ensures LinesOf(nodes) == nodes
  {
    if nodes != [] {
      LeavesPrint(nodes[..|nodes| - 1]);
    }
  }
}
