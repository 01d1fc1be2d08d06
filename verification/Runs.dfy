/**
  Laws of whole runs: in which order things happen, which branch is taken, how often a loop runs,
  and what the built-in functions do.
*/
module Runs {
  import opened Ast
  import opened ValueMap
  import opened Env
  import opened Eval
  import opened EvalProperties
  import opened Calls
  import opened Scoping
  import opened Operators

  // ----- order of evaluation -----

  // Evaluating two lists of expressions in a row is evaluating one and then, if all its members
  // have values, the other.
  lemma {:induction false} ArgsSplit(es: seq<Expr>, fs: seq<Expr>, env: Env, out: Output)
    ensures var (vs, env1, out1) := EvalArgs(es, env, out);
      EvalArgs(es + fs, env, out) ==
      if !vs.Done? then (vs, env1, out1)
      else
        var (ws, env2, out2) := EvalArgs(fs, env1, out1);
        (if ws.Done? then Done(vs.value + ws.value) else ws, env2, out2)
    decreases |es|
  {
    hide EvalExpr;
    if es == [] {
      assert es + fs == fs;
      var ws := EvalArgs(fs, env, out).0;
      assert ws.Done? ==> [] + ws.value == ws.value;
    } else {
      assert (es + fs)[1..] == es[1..] + fs;
      var (a, env1, out1) := EvalExpr(es[0], env, out);
      if a.Done? {
        ArgsSplit(es[1..], fs, env1, out1);
        Regrouped(a.value, es[1..], fs, env1, out1);
      }
    }
  }

  lemma Regrouped(v: Val, es: seq<Expr>, fs: seq<Expr>, env: Env, out: Output)
    ensures var (vs, env1, out1) := EvalArgs(es, env, out);
      var ws := EvalArgs(fs, env1, out1).0;
      vs.Done? && ws.Done? ==> [v] + (vs.value + ws.value) == [v] + vs.value + ws.value
  {
  }

  // Two outcomes without a value that end a run in the same way.
  predicate EndsAlike<T(==), U(==)>(a: Outcome<T>, b: Outcome<U>) {
    match a
    case Done(_) => false
    case Failed(error) => b == Failed(error)
    case Exited(code) => b == Exited(code)
    case OutOfFuel => b == OutOfFuel
  }

  // Operands are evaluated as arguments are, left to right, and combined only when both have values.
  lemma OperandsInOrder(op: BinOp, left: Expr, right: Expr, env: Env, out: Output)
    ensures var (vs, env1, out1) := EvalArgs([left, right], env, out);
      var (r, env2, out2) := EvalExpr(Binary(op, left, right), env, out);
      && env2 == env1 && out2 == out1
      && if vs.Done? then |vs.value| == 2 && r == BinaryOp(op, vs.value[0], vs.value[1]) else EndsAlike(vs, r)
  {
    hide BinaryOp;
    assert [left, right] == [left] + [right];
    ArgsSplit([left], [right], env, out);
    OneExpression(left, env, out);
    var (_, env1, out1) := EvalExpr(left, env, out);
    OneExpression(right, env1, out1);
  }

  lemma OneExpression(e: Expr, env: Env, out: Output)
    ensures var (a, env1, out1) := EvalExpr(e, env, out);
      var (vs, env2, out2) := EvalArgs([e], env, out);
      && env2 == env1 && out2 == out1
      && if a.Done? then vs == Done([a.value]) else EndsAlike(a, vs)
  {
    hide EvalExpr;
    var (a, env1, out1) := EvalExpr(e, env, out);
    assert [e][1..] == [];
    assert EvalArgs([], env1, out1) == (Done([]), env1, out1);
    if a.Done? {
      assert [a.value] + [] == [a.value];
    }
  }

  // ----- output -----

  // What a run that starts with the output pre has done, given what it does from nothing.
  function Behind<T>(pre: Output, r: (Outcome<T>, Env, Output)): (Outcome<T>, Env, Output) {
    (r.0, r.1, pre + r.2)
  }

  lemma Joined(a: Output, b: Output, c: Output)
    ensures a + b + c == a + (b + c) && a + [] == a && [] + a == a
  {
  }

  lemma CalledBehind(callee: string, env: Env, env1: Env, vs: seq<Val>, pre: Output, out: Output)
    ensures var (r, o) := Invoke(callee, env, env1, vs, out);
      Invoke(callee, env, env1, vs, pre + out) == (r, pre + o)
  {
    hide ShownList, Holder, Resolve;
    Joined(pre, out, ShownList(vs));
    Joined(pre, out + ShownList(vs), [Ch('\n')]);
  }

  // Output is only ever appended, and what is appended depends on nothing printed before.
  lemma {:induction false} ExprAppends(e: Expr, env: Env, pre: Output, out: Output)
    ensures EvalExpr(e, env, pre + out) == Behind(pre, EvalExpr(e, env, out))
    decreases e, 1
  {
    hide Invoke, Assigned, BinaryOp, Resolve;
    match e
    case Binary(_, left, right) =>
      ExprAppends(left, env, pre, out);
      var (_, env1, out1) := EvalExpr(left, env, out);
      ExprAppends(right, env1, pre, out1);
    case Assign(_, value) =>
      ExprAppends(value, env, pre, out);
    case Call(callee, args) =>
      ArgsAppend(args, env, pre, out);
      var (vs, env1, out1) := EvalArgs(args, env, out);
      if vs.Done? {
        CalledBehind(callee, env, env1, vs.value, pre, out1);
      }
    case _ =>
  }

  lemma {:induction false} ArgsAppend(args: seq<Expr>, env: Env, pre: Output, out: Output)
    ensures EvalArgs(args, env, pre + out) == Behind(pre, EvalArgs(args, env, out))
    decreases args, 0
  {
    hide EvalExpr;
    if args != [] {
      ExprAppends(args[0], env, pre, out);
      var (_, env1, out1) := EvalExpr(args[0], env, out);
      ArgsAppend(args[1..], env1, pre, out1);
    }
  }

  lemma {:induction false} ExecAppends(s: Stmt, env: Env, pre: Output, out: Output, fuel: nat)
    ensures Exec(s, env, pre + out, fuel) == Behind(pre, Exec(s, env, out, fuel))
    decreases s, 0, 0
  {
    hide EvalExpr, Declared, Overwritten, Truthy, NewScope, LoopScope;
    match s
    case ExprStmt(e) =>
      ExprAppends(e, env, pre, out);
    case VarDecl(_, _, init) =>
      if init.Some? {
        ExprAppends(init.value, env, pre, out);
      }
    case FnDecl(_, _, _) =>
    case Block(stmts) =>
      SeqAppends(stmts, VNull, NewScope(env), pre, out, fuel);
    case If(cond, thn, els) =>
      ExprAppends(cond, env, pre, out);
      var (c, env1, out1) := EvalExpr(cond, env, out);
      if c.Done? && Truthy(c.value) {
        ExecAppends(thn, env1, pre, out1, fuel);
      } else if c.Done? && els.Some? {
        ExecAppends(els.value, env1, pre, out1, fuel);
      }
    case Loop(count, iterVar, body) =>
      var (n, env1, out1) := if count.None? then (Done(VBool(true)), env, out) else EvalExpr(count.value, env, out);
      if count.Some? {
        ExprAppends(count.value, env, pre, out);
      }
      if n.Done? && (n.value.VBool? || n.value.VInt?) && !(n.value.VInt? && n.value.i < 0) {
        IterationsAppend(n.value, iterVar, body, 0, LoopScope(env1, iterVar), pre, out1, fuel);
      }
  }

  lemma {:induction false} SeqAppends(ss: seq<Stmt>, last: Val, env: Env, pre: Output, out: Output, fuel: nat)
    ensures ExecSeq(ss, last, env, pre + out, fuel) == Behind(pre, ExecSeq(ss, last, env, out, fuel))
    decreases ss, 0, 0
  {
    if ss != [] {
      ExecAppends(ss[0], env, pre, out, fuel);
      var (r, env1, out1) := Exec(ss[0], env, out, fuel);
      if r.Done? {
        SeqAppends(ss[1..], r.value, env1, pre, out1, fuel);
      }
    }
  }

  lemma {:induction false} IterationsAppend(limit: Val, iterVar: Option<string>, body: Stmt, counter: nat, env: Env,
                                            pre: Output, out: Output, fuel: nat)
    requires limit.VBool? || limit.VInt?
    ensures Iterate(limit, iterVar, body, counter, env, pre + out, fuel)
         == Behind(pre, Iterate(limit, iterVar, body, counter, env, out, fuel))
    decreases body, 2, if limit.VInt? then limit.i - counter else fuel
  {
    hide Entering, Leaving, Exec, ExecSeq;
    if !Finished(limit, counter) && !(limit.VBool? && fuel == 0) {
      var start := Entering(env, counter);
      if body.Block? {
        SeqAppends(body.stmts, VNull, start, pre, out, fuel);
      } else {
        ExecAppends(body, start, pre, out, fuel);
      }
      var (r, env1, out1) := ExecBody(body, start, out, fuel);
      if r.Done? {
        IterationsAppend(limit, iterVar, body, counter + 1, Leaving(env1, iterVar, counter + 1), pre, out1,
                         if limit.VBool? then fuel - 1 else fuel);
      }
    }
  }

  // ----- branches -----

  // What `if` takes for false.
  predicate Falsy(v: Val) { v in {VNull, VBool(false), VInt(0)} }

  // Null, false and 0 take the else branch, every other value the first one: the run leaves what
  // the branch taken leaves, or, without one, what the condition left.
  lemma BranchTaken(cond: Expr, thn: Stmt, els: Option<Stmt>, env: Env, out: Output, fuel: nat)
    requires EvalExpr(cond, env, out).0.Done?
    ensures var (c, env1, out1) := EvalExpr(cond, env, out);
      var (r, env2, out2) := Exec(If(cond, thn, els), env, out, fuel);
      && (r.Done? ==> r.value == VNull)
      && if Falsy(c.value) && els.None? then r.Done? && env2 == env1 && out2 == out1
         else
           var (r', env', out') := Exec(if Falsy(c.value) then els.value else thn, env1, out1, fuel);
           env2 == env' && out2 == out' && (r.Done? <==> r'.Done?) && (!r.Done? ==> r == r')
  {
    hide EvalExpr;
  }

  // Of the values that are no strings exactly those equal to 0 are taken for false; every string,
  // the empty one too, is taken for true.
  lemma FalsyIsZero(v: Val)
    ensures v.VStr? ==> !Falsy(v)
    ensures !v.VStr? ==> (Falsy(v) <==> Yes(Eq, v, VInt(0)))
  {
  }

  // ----- built-in functions -----

  lemma {:induction false} ShownSplits(vs: seq<Val>, ws: seq<Val>)
    requires vs != [] && ws != []
    ensures ShownList(vs + ws) == ShownList(vs) + [Ch(' ')] + ShownList(ws)
    decreases |vs|
  {
    hide Shown;
    assert (vs + ws)[1..] == vs[1..] + ws;
    if |vs| == 1 {
      assert vs[1..] == [];
      assert [] + ws == ws;
      assert |vs + ws| > 1;
    } else {
      ShownSplits(vs[1..], ws);
      Joined(Shown(vs[0]) + [Ch(' ')], ShownList(vs[1..]), [Ch(' ')]);
      Joined(Shown(vs[0]) + [Ch(' ')], ShownList(vs[1..]) + [Ch(' ')], ShownList(ws));
    }
  }

  // How a value is printed: a string as it is, and any other value that has a text as that text
  // between a colour and its end.
  lemma ShownInColour(v: Val)
    ensures v.VStr? ==> Shown(v) == Text(v.s)
    ensures v.VInt? || v.VBool? || v.VNull? ==>
      exists t :: IsTextOf(t, v) && Shown(v) == Text(Colour(v) + t + "\U{1B}[0m")
    ensures v.VFloat? ==> Shown(v) == Text(Colour(v)) + [FloatText(v.num, v.den)] + Text("\U{1B}[0m")
    ensures v.VBuiltin? ==> Shown(v) == Text(Colour(v) + "[Function Built-in]" + "\U{1B}[0m")
  {
    hide Text, IsTextOf;
    DimTexts();
    if v.VInt? || v.VBool? || v.VNull? {
      TextIs(v);
      assert Shown(v) == Text(Colour(v) + Stringify(v).value + "\U{1B}[0m");
    }
  }

  lemma DimTexts()
    ensures "\U{1B}[2mnull\U{1B}[0m" == "\U{1B}[2m" + "null" + "\U{1B}[0m"
    ensures "\U{1B}[2m[Function Built-in]\U{1B}[0m" == "\U{1B}[2m" + "[Function Built-in]" + "\U{1B}[0m"
  {
  }

  // Yellow and bold for numbers, cyan for booleans, dim for null and functions.
  function Colour(v: Val): string {
    if v.VInt? || v.VFloat? then "\U{1B}[1;33m" else if v.VBool? then "\U{1B}[36m" else "\U{1B}[2m"
  }

  // The name is bound to the built-in function of this name.
  predicate BoundToItself(env: Env, fn: string) { Resolve(env, fn) == Some(VBuiltin(fn)) }

  lemma CallOf(fn: string, args: seq<Expr>, env: Env, out: Output)
    requires BoundToItself(env, fn) && (forall a :: a in args ==> AssignmentFree(a)) && EvalArgs(args, env, out).0.Done?
    ensures var (vs, env1, out1) := EvalArgs(args, env, out);
      var (r, out2) := CallBuiltin(fn, vs.value, out1);
      EvalExpr(Call(fn, args), env, out) == (r, env, out2) && env1 == env
  {
    hide CallBuiltin, EvalExpr, Resolve;
    PlainArguments(fn, args, env, out);
    NothingAssignedByArgs(args, env, out);
  }

  // `print` shows its arguments, of which there must be one, and `println` does the same and then
  // ends the line, also where `print` fails.
  lemma PrintAndPrintln(args: seq<Expr>, env: Env, out: Output)
    requires BoundToItself(env, "print") && BoundToItself(env, "println")
    requires (forall a :: a in args ==> AssignmentFree(a)) && EvalArgs(args, env, out).0.Done?
    ensures var (vs, _, out1) := EvalArgs(args, env, out);
      var (r, env2, out2) := EvalExpr(Call("print", args), env, out);
      && r == (if args == [] then Failed(NoArguments) else Done(VNull))
      && env2 == env && out2 == out1 + ShownList(vs.value)
      && EvalExpr(Call("println", args), env, out) == (r, env, out2 + [Ch('\n')])
  {
    hide ShownList, EvalExpr, Resolve, BoundToItself;
    CallOf("print", args, env, out);
    CallOf("println", args, env, out);
    OneValueEach(args, env, out);
  }

  lemma {:induction false} OneValueEach(args: seq<Expr>, env: Env, out: Output)
    requires EvalArgs(args, env, out).0.Done?
    ensures |EvalArgs(args, env, out).0.value| == |args|
    decreases |args|
  {
    hide EvalExpr;
    if args != [] {
      var (_, env1, out1) := EvalExpr(args[0], env, out);
      OneValueEach(args[1..], env1, out1);
    }
  }

  // `exit` ends the run, whatever follows, with the low byte of its argument or with 0; anything
  // but an integer is an error.
  lemma ExitEnds(args: seq<Expr>, ss: seq<Stmt>, last: Val, env: Env, out: Output, fuel: nat)
    requires BoundToItself(env, "exit")
    requires (forall a :: a in args ==> AssignmentFree(a)) && EvalArgs(args, env, out).0.Done?
    ensures var (vs, _, out1) := EvalArgs(args, env, out);
      var (r, env2, out2) := ExecSeq([ExprStmt(Call("exit", args))] + ss, last, env, out, fuel);
      && env2 == env && out2 == out1
      && (args == [] ==> r == Exited(0))
      && (args != [] && !vs.value[0].VInt? ==> r == Failed(BadExitCode))
      && (args != [] && vs.value[0].VInt? ==> r.Exited? && 0 <= r.code < 256 && (vs.value[0].i - r.code) % 256 == 0)
  {
    hide EvalExpr, Resolve, BoundToItself, ExecSeq;
    var call := Call("exit", args);
    CallOf("exit", args, env, out);
    OneValueEach(args, env, out);
    SeqSplits([ExprStmt(call)], ss, last, env, out, fuel);
    SingleStatement(ExprStmt(call), last, env, out, fuel);
    ExprStatement(call, env, out, fuel);
  }

  // ----- the global scope -----

  lemma GlobalBinds()
    ensures GlobalEnv().Chain?
    ensures var top := GlobalEnv().top;
      && !top.reuse && !top.allowRedecl && BuiltinsBound(GlobalEnv())
      && forall k :: k in LITERALS ==> k in top.vars && top.vars[k] == LITERALS[k]
  {
    hide WithBuiltins, Builtins;
    ScopesBindBuiltins(Nil);
    BuiltinsAdded(LITERALS, |Builtins()|);
    assert GlobalEnv().top.vars == WithBuiltins(LITERALS, |Builtins()|);
  }

  lemma BuiltinNames()
    ensures forall name :: name in Builtins() <==> name in {"print", "println", "vector", "array_filter", "read", "exit"}
  {
    var names := Builtins();
    assert names[0] == "println" && names[1] == "print" && names[2] == "vector";
    assert names[3] == "array_filter" && names[4] == "read" && names[5] == "exit";
  }

  // The three literals and the built-in functions mean the same after any run of any program.
  lemma LiteralsSurvive(program: seq<Stmt>, fuel: nat)
    ensures var env := RunProgram(program, fuel).1;
      && Resolve(env, "true") == Some(VBool(true)) && Resolve(env, "false") == Some(VBool(false))
      && Resolve(env, "null") == Some(VNull)
      && forall name :: name in {"print", "println", "vector", "array_filter", "read", "exit"} ==>
           Resolve(env, name) == Some(VBuiltin(name))
  {
    GlobalBinds();
    BuiltinNames();
    var start := GlobalEnv();
    hide WithBuiltins, Builtins, ExecSeq, GlobalEnv, BuiltinsBound;
    SeqKeeps(program, VNull, start, [], fuel);
    var env := ExecSeq(program, VNull, start, [], fuel).1;
    assert LITERALS["true"] == Binding(VBool(true), true) && LITERALS["false"] == Binding(VBool(false), true);
    assert LITERALS["null"] == Binding(VNull, true);
    forall name | name in Builtins()
      ensures Resolve(env, name) == Some(VBuiltin(name))
    {
      BuiltinsSurvive(program, VNull, start, [], fuel, name);
    }
  }

  // ----- loops -----

  // Only integers and booleans are counts and no negative ones; 0 and false run the body not at
  // all; and `loop (true)` is the loop without a count, which never ends normally.
  lemma CountsAccepted(count: Expr, iterVar: Option<string>, body: Stmt, env: Env, out: Output, fuel: nat)
    requires EvalExpr(count, env, out).0.Done?
    ensures var (n, env1, out1) := EvalExpr(count, env, out);
      var r := Exec(Loop(Some(count), iterVar, body), env, out, fuel);
      && (!n.value.VInt? && !n.value.VBool? ==> r == (Failed(NotIterable), env1, out1))
      && (n.value.VInt? && n.value.i < 0 ==> r == (Failed(NegativeCount), env1, out1))
      && (n.value == VInt(0) || n.value == VBool(false) ==> r == (Done(VNull), env1, out1))
      && (n.value == VBool(true) ==> r == Exec(Loop(None, iterVar, body), env1, out1, fuel))
    ensures !Exec(Loop(None, iterVar, body), env, out, fuel).0.Done?
  {
    var (n, env1, out1) := EvalExpr(count, env, out);
    hide EvalExpr, LoopScope;
    LoopScopeUp(env1, iterVar);
    EndlessLoop(iterVar, body, 0, LoopScope(env, iterVar), out, fuel);
  }

  // The sum of the integers from k up to, and without, n.
  function SumFrom(k: nat, n: nat): nat
    decreases n - k
  {
    if k >= n then 0 else k + SumFrom(k + 1, n)
  }

  lemma {:induction false} SumClosed(k: nat, n: nat)
    requires k <= n
    ensures 2 * SumFrom(k, n) == n * (n - 1) - k * (k - 1)
    decreases n - k
  {
    if k < n {
      SumClosed(k + 1, n);
      assert (k + 1) * k == k * (k - 1) + 2 * k;
    }
  }

  lemma SumIs(n: nat)
    ensures SumFrom(0, n) == n * (n - 1) / 2
  {
    SumClosed(0, n);
  }

  // `s = s + i`
  function Adding(s: string, i: string): Stmt { ExprStmt(Assign(s, Binary(BinOp.Plus, Ident(s), Ident(i)))) }

  // Between iterations: i is the counter, in the scope of the loop, and s a variable around it.
  ghost predicate Summing(env: Env, s: string, i: string, k: nat, a: int) {
    && env.Chain? && i in env.top.vars && env.top.vars[i].value == VInt(k) && s !in env.top.vars
    && Resolve(env.up, s) == Some(VInt(a)) && !NearestIsConst(env.up, s)
  }

  lemma OneAddition(env: Env, s: string, i: string, k: nat, a: int, out: Output, fuel: nat)
    requires Summing(env, s, i, k, a) && InRange(a + k)
    ensures var (r, env1, out1) := ExecBody(Adding(s, i), Entering(env, k), out, fuel);
      && r.Done? && out1 == out && Summing(Leaving(env1, Some(i), k + 1), s, i, k + 1, a + k)
      && forall other :: other != s ==> Resolve(env1.up, other) == Resolve(env.up, other)
  {
    var start := Entering(env, k);
    var e := Binary(BinOp.Plus, Ident(s), Ident(i));
    assert EvalExpr(e, start, out) == (Done(VInt(a + k)), start, out);
    AssignChangesNearest(start.up, s, VInt(a + k));
    AssignedEvolves(start.up, s, VInt(a + k));
    EvolvedBinding(start.up, Assigned(start.up, s, VInt(a + k)).0, s);
    assert ExecBody(Adding(s, i), start, out, fuel) == EvalExpr(Assign(s, e), start, out);
  }

  lemma {:induction false} AdditionsFrom(n: nat, env: Env, s: string, i: string, k: nat, a: int, out: Output, fuel: nat)
    requires k <= n && s != i && Summing(env, s, i, k, a) && InRange(a) && InRange(a + SumFrom(k, n))
    ensures var (r, env1, out1) := Iterate(VInt(n), Some(i), Adding(s, i), k, env, out, fuel);
      && r.Done? && out1 == out && env1.Chain? && Resolve(env1.up, s) == Some(VInt(a + SumFrom(k, n)))
      && forall other :: other != s ==> Resolve(env1.up, other) == Resolve(env.up, other)
    decreases n - k
  {
    hide ExecBody, Entering, Leaving, Adding;
    if k < n {
      OneAddition(env, s, i, k, a, out, fuel);
      var env1 := ExecBody(Adding(s, i), Entering(env, k), out, fuel).1;
      LeavingUp(env1, i, k + 1);
      AdditionsFrom(n, Leaving(env1, Some(i), k + 1), s, i, k + 1, a + k, out, fuel);
    }
  }

  lemma LeavingUp(env: Env, i: string, k: nat)
    ensures env.Chain? ==> Leaving(env, Some(i), k).Chain? && Leaving(env, Some(i), k).up == env.up
    ensures env.Nil? ==> Leaving(env, Some(i), k).Nil?
  {
  }

  lemma SummingStarts(i: string, s: string, a: int, env: Env)
    requires s != i && s !in Builtins() && i !in Builtins()
    requires Resolve(env, s) == Some(VInt(a)) && !NearestIsConst(env, s)
    ensures Summing(LoopScope(env, Some(i)), s, i, 0, a)
  {
    AllBuiltinsAdded(map[]);
    hide WithBuiltins, Builtins;
  }

  lemma CountedBy(n: nat, iterVar: Option<string>, body: Stmt, env: Env, out: Output, fuel: nat)
    ensures var (r, env1, out1) := Iterate(VInt(n), iterVar, body, 0, LoopScope(env, iterVar), out, fuel);
      Exec(Loop(Some(IntLit(n)), iterVar, body), env, out, fuel) == (r, Popped(env1), out1)
  {
    hide Iterate, LoopScope;
  }

  lemma LoopSumsTo(n: nat, i: string, s: string, a: int, sum: int, env: Env, out: Output, fuel: nat)
    requires s != i && s !in Builtins() && i !in Builtins() && sum == SumFrom(0, n)
    requires Resolve(env, s) == Some(VInt(a)) && !NearestIsConst(env, s)
    requires InRange(a) && InRange(a + sum)
    ensures var (r, env1, out1) := Exec(Loop(Some(IntLit(n)), Some(i), Adding(s, i)), env, out, fuel);
      && r == Done(VNull) && out1 == out && Resolve(env1, s) == Some(VInt(a + sum))
      && forall other :: other != s ==> Resolve(env1, other) == Resolve(env, other)
  {
    var inner := LoopScope(env, Some(i));
    SummingStarts(i, s, a, env);
    LoopScopeUp(env, Some(i));
    hide LoopScope, Adding, Summing, Builtins, Resolve, Exec, Iterate, SumFrom;
    CountedBy(n, Some(i), Adding(s, i), env, out, fuel);
    AdditionsFrom(n, inner, s, i, 0, a, out, fuel);
    IterationsReturn(VInt(n), Some(i), Adding(s, i), 0, inner, out, fuel);
  }

  // `loop (n as i) s = s + i;` adds 0 + 1 + ... + (n - 1) to the variable s and changes nothing else.
  lemma LoopSums(n: nat, i: string, s: string, a: int, env: Env, out: Output, fuel: nat)
    requires s != i && s !in Builtins() && i !in Builtins()
    requires Resolve(env, s) == Some(VInt(a)) && !NearestIsConst(env, s)
    requires InRange(a) && InRange(a + n * (n - 1) / 2)
    ensures var (r, env1, out1) := Exec(Loop(Some(IntLit(n)), Some(i), Adding(s, i)), env, out, fuel);
      && r == Done(VNull) && out1 == out && Resolve(env1, s) == Some(VInt(a + n * (n - 1) / 2))
      && forall other :: other != s ==> Resolve(env1, other) == Resolve(env, other)
  {
    hide Exec, Resolve, Builtins;
    SumIs(n);
    LoopSumsTo(n, i, s, a, n * (n - 1) / 2, env, out, fuel);
  }

  lemma {:induction false} IterationsReturn(limit: Val, iterVar: Option<string>, body: Stmt, counter: nat, env: Env,
                                            out: Output, fuel: nat)
    requires limit.VBool? || limit.VInt?
    ensures var r := Iterate(limit, iterVar, body, counter, env, out, fuel).0;
      r.Done? ==> r.value == VNull
    decreases if limit.VInt? then limit.i - counter else fuel
  {
    hide ExecBody, Entering, Leaving;
    if !Finished(limit, counter) && !(limit.VBool? && fuel == 0) {
      var (r, env1, out1) := ExecBody(body, Entering(env, counter), out, fuel);
      if r.Done? {
        IterationsReturn(limit, iterVar, body, counter + 1, Leaving(env1, iterVar, counter + 1), out1,
                         if limit.VBool? then fuel - 1 else fuel);
      }
    }
  }

  // From the given position on, every one of the scopes binds the name in its innermost frame.
  ghost predicate BoundFrom(starts: seq<Env>, from: nat, name: string) {
    forall j :: from <= j < |starts| ==> starts[j].Chain? && name in starts[j].top.vars
  }

  // A block that is the body of a loop has one scope for all iterations: what it declares is
  // still bound when the next iteration starts.
  lemma {:induction false} BodyScopeShared(n: nat, iterVar: Option<string>, body: Stmt, counter: nat, env: Env, out: Output,
                                           fuel: nat)
    requires body.Block? && body.stmts != [] && body.stmts[0].VarDecl?
    requires env.Chain? && (counter > 0 ==> body.stmts[0].name in env.top.vars)
    ensures BoundFrom(Starts(VInt(n), iterVar, body, counter, env, out, fuel), if counter > 0 then 0 else 1, body.stmts[0].name)
    decreases n - counter
  {
    hide ExecBody, Leaving;
    if counter < n {
      var start := Entering(env, counter);
      var (r, env1, out1) := ExecBody(body, start, out, fuel);
      if r.Done? {
        FirstDeclaredInBody(body, start, out, fuel);
        LeavingKeeps(env1, iterVar, counter + 1, body.stmts[0].name);
        var next := Leaving(env1, iterVar, counter + 1);
        BodyScopeShared(n, iterVar, body, counter + 1, next, out1, fuel);
        var rest := Starts(VInt(n), iterVar, body, counter + 1, next, out1, fuel);
        assert Starts(VInt(n), iterVar, body, counter, env, out, fuel) == [start] + rest;
      }
    }
  }

  lemma FirstDeclaredInBody(body: Stmt, env: Env, out: Output, fuel: nat)
    requires body.Block? && body.stmts != [] && body.stmts[0].VarDecl?
    requires env.Chain? && ExecBody(body, env, out, fuel).0.Done?
    ensures var env1 := ExecBody(body, env, out, fuel).1;
      env1.Chain? && body.stmts[0].name in env1.top.vars
  {
    hide Exec, ExecSeq;
    var decl := body.stmts[0];
    var (r, env1, out1) := Exec(decl, env, out, fuel);
    SeqSplits([decl], body.stmts[1..], VNull, env, out, fuel);
    SingleStatement(decl, VNull, env, out, fuel);
    assert [decl] + body.stmts[1..] == body.stmts;
    DeclaredIsBound(decl, env, out, fuel);
    SeqKeeps(body.stmts[1..], r.value, env1, out1, fuel);
  }

  lemma DeclaredIsBound(s: Stmt, env: Env, out: Output, fuel: nat)
    requires s.VarDecl? && env.Chain? && Exec(s, env, out, fuel).0.Done?
    ensures var env1 := Exec(s, env, out, fuel).1;
      env1.Chain? && s.name in env1.top.vars
  {
    hide EvalExpr;
    InitialEvolves(s.init, env, out);
  }

  lemma LeavingKeeps(env: Env, iterVar: Option<string>, counter: nat, name: string)
    requires env.Chain? && name in env.top.vars
    ensures Leaving(env, iterVar, counter).Chain? && name in Leaving(env, iterVar, counter).top.vars
  {
  }
}
