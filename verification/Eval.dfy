/**
  The meaning of programs (src/eval.c, lib/lib.c, lib/print.c) over a chain of finite maps, each
  with the size of the table that holds it: the reference for the interpreter on hash tables and
  for compiled code.

  Every error exits the process, so an outcome other than Done ends the run. C undefined
  behaviour is the error Undefined and a construct outside the model is Unsupported. Only
  `loop (true)` can fail to end; fuel bounds its iterations.
*/
module Eval {
  import opened Ast
  import opened ValueMap
  import opened Env
  import Decimal

  datatype Error =
    | NotIterable | NegativeCount
    | Undeclared(name: string) | UndefinedFunction(name: string) | NotAFunction(name: string)
    | ConstAssigned(name: string) | Redeclared(name: string)
    | DivisionByZero | BadOperands | BadOperator
    | NoArguments | BadExitCode
    | Unmodelled(fn: string) | Undefined | Unsupported

  datatype Outcome<+T> = Done(value: T) | Failed(error: Error) | Exited(code: int) | OutOfFuel

  // The standard output; the digits a float prints as are not modelled.
  datatype Out = Ch(c: char) | FloatText(num: int, den: int)

  type Output = seq<Out>

  function Text(s: string): (r: Output)
    ensures |r| == |s|
  {
    seq(|s|, i requires 0 <= i < |s| => Ch(s[i]))
  }

  // ----- values -----

  predicate Truthy(v: Val) {
    v != VNull && v != VBool(false) && v != VInt(0)
  }

  function ToInt(v: Val): int {
    match v
    case VInt(i) => i
    case VNull => 0
    case VBool(b) => if b then 1 else 0
    case _ => 1
  }

  predicate SameType(a: Val, b: Val) {
    match a
    case VInt(_) => b.VInt?
    case VFloat(_, _) => b.VFloat?
    case VStr(_) => b.VStr?
    case VBool(_) => b.VBool?
    case VNull => b.VNull?
    case VBuiltin(_) => b.VBuiltin?
  }

  // val_stringify; None is the null pointer.
  function Stringify(v: Val): Option<string> {
    match v
    case VStr(s) => Some(s)
    case VInt(i) => Some(Decimal.Signed(i))
    case VBool(b) => Some(if b then "true" else "false")
    case VNull => Some("null")
    case _ => None
  }

  predicate InRange(i: int) { Decimal.LLONG_MIN <= i <= Decimal.LLONG_MAX }

  function Checked(i: int): Outcome<Val> {
    if InRange(i) then Done(VInt(i)) else Failed(Undefined)
  }

  // The C remainder, which has the sign of the dividend.
  function Remainder(a: int, b: int): int
    requires b != 0
  {
    if a >= 0 then a % b else -((-a) % b)
  }

  function IntOp(op: BinOp, a: int, b: int): Outcome<Val> {
    match op
    case Plus => Checked(a + b)
    case Minus => Checked(a - b)
    case Times => Checked(a * b)
    case Divide => if b == 0 then Failed(DivisionByZero) else Done(VFloat(a, b))
    case Modulus =>
      if b == 0 then Failed(DivisionByZero)
      else if a == Decimal.LLONG_MIN && b == -1 then Failed(Undefined)
      else Done(VInt(Remainder(a, b)))
    case _ => Failed(BadOperator)
  }

  function Concat(a: Val, b: Val): Outcome<Val> {
    var l, r := Stringify(a), Stringify(b);
    if (a.VStr? || b.VStr?) && l.Some? && r.Some? then Done(VStr(l.value + r.value))
    else Failed(BadOperands)
  }

  predicate IsEquality(op: BinOp) { op.Eq? || op.EqS? || op.Ne? || op.NeS? }

  // ===, and also !==, hold only between operands of one type.
  function Equality(op: BinOp, same: bool, a: Val, b: Val): bool
    requires IsEquality(op)
  {
    (if op.Eq? || op.EqS? then same else !same) && (op.EqS? || op.NeS? ==> SameType(a, b))
  }

  function StrOp(op: BinOp, a: Val, b: Val): Outcome<Val> {
    if op.Plus? then Concat(a, b)
    else if !IsEquality(op) then Failed(BadOperator)
    else
      var l, r := Stringify(a), Stringify(b);
      if l.None? || r.None? then Failed(Undefined)
      else Done(VBool(Equality(op, l.value == r.value, a, b)))
  }

  function Compare(op: BinOp, a: Val, b: Val): Outcome<Val> {
    if a.VStr? || b.VStr? then StrOp(op, a, b)
    else
      var l, r := ToInt(a), ToInt(b);
      match op
      case Lt => Done(VBool(l < r))
      case Gt => Done(VBool(l > r))
      case Ge => Done(VBool(l >= r))
      case Le => Done(VBool(l <= r))
      case _ => if IsEquality(op) then Done(VBool(Equality(op, l == r, a, b))) else Failed(BadOperator)
  }

  function BinaryOp(op: BinOp, a: Val, b: Val): Outcome<Val> {
    if IsComparison(op) then Compare(op, a, b)
    else if a.VInt? && b.VInt? then IntOp(op, a.i, b.i)
    else if a.VStr? || b.VStr? then StrOp(op, a, b)
    else Failed(BadOperands)
  }

  // ----- printing -----

  // print_val_internal; \U{1B} starts a colour code.
  function Shown(v: Val): Output {
    match v
    case VStr(s) => Text(s)
    case VInt(i) => Text("\U{1B}[1;33m" + Decimal.Signed(i) + "\U{1B}[0m")
    case VFloat(n, d) => Text("\U{1B}[1;33m") + [FloatText(n, d)] + Text("\U{1B}[0m")
    case VBool(b) => Text("\U{1B}[36m" + (if b then "true" else "false") + "\U{1B}[0m")
    case VNull => Text("\U{1B}[2mnull\U{1B}[0m")
    case VBuiltin(_) => Text("\U{1B}[2m[Function Built-in]\U{1B}[0m")
  }

  function ShownList(vs: seq<Val>): Output {
    if vs == [] then []
    else if |vs| == 1 then Shown(vs[0])
    else Shown(vs[0]) + [Ch(' ')] + ShownList(vs[1..])
  }

  function CallBuiltin(fn: string, vs: seq<Val>, out: Output): (Outcome<Val>, Output) {
    if fn == "println" then
      (if vs == [] then Failed(NoArguments) else Done(VNull), out + ShownList(vs) + [Ch('\n')])
    else if fn == "print" then
      (if vs == [] then Failed(NoArguments) else Done(VNull), out + ShownList(vs))
    else if fn == "exit" then
      (if vs == [] then Exited(0)
       else if vs[0].VInt? then Exited(vs[0].i % 256)
       else Failed(BadExitCode), out)
    else (Failed(Unmodelled(fn)), out)
  }

  // The call of a function that was looked up in env, once its arguments were evaluated and have
  // left env1. The lookup gave a pointer to the binding, and the function is read through it only
  // now: it is the one the name is bound to now, and there is none if the table moved.
  function Invoke(callee: string, env: Env, env1: Env, vs: seq<Val>, out: Output): (Outcome<Val>, Output) {
    if Holder(env1, callee) != Holder(env, callee) then (Failed(Undefined), out)
    else
      match Resolve(env1, callee)
      case Some(VBuiltin(fn)) => CallBuiltin(fn, vs, out)
      case _ => (Failed(Undefined), out)
  }

  // ----- expressions -----

  function EvalExpr(e: Expr, env: Env, out: Output): (Outcome<Val>, Env, Output)
    decreases e, 1
  {
    match e
    case IntLit(n) => (Done(VInt(n)), env, out)
    case StrLit(s) => (Done(VStr(s)), env, out)
    case Ident(name) =>
      var v := Resolve(env, name);
      (if v.None? then Failed(Undeclared(name)) else Done(v.value), env, out)
    case Binary(op, left, right) =>
      var (a, env1, out1) := EvalExpr(left, env, out);
      if !a.Done? then (a, env1, out1) else
      var (b, env2, out2) := EvalExpr(right, env1, out1);
      if !b.Done? then (b, env2, out2) else
      (BinaryOp(op, a.value, b.value), env2, out2)
    case Assign(name, value) =>
      var (a, env1, out1) := EvalExpr(value, env, out);
      if !a.Done? then (a, env1, out1) else
      var (env2, status) := Assigned(env1, name, a.value);
      (match status
       case SetNotFound => Failed(Undeclared(name))
       case SetIsConst => Failed(ConstAssigned(name))
       case _ => a, env2, out1)
    case Call(callee, args) =>
      var f := Resolve(env, callee);
      if f.None? then (Failed(UndefinedFunction(callee)), env, out)
      else if !f.value.VBuiltin? then (Failed(NotAFunction(callee)), env, out)
      else
        var (vs, env1, out1) := EvalArgs(args, env, out);
        (match vs
         case Done(vs) =>
           var (r, out2) := Invoke(callee, env, env1, vs, out1);
           (r, env1, out2)
         case Failed(error) => (Failed(error), env1, out1)
         case Exited(code) => (Exited(code), env1, out1)
         case OutOfFuel => (OutOfFuel, env1, out1))
    case ArrayLit(_) => (Failed(Unsupported), env, out)
  }

  function EvalArgs(args: seq<Expr>, env: Env, out: Output): (Outcome<seq<Val>>, Env, Output)
    decreases args, 0
  {
    if args == [] then (Done([]), env, out)
    else
      var (a, env1, out1) := EvalExpr(args[0], env, out);
      match a
      case Done(v) =>
        var (vs, env2, out2) := EvalArgs(args[1..], env1, out1);
        (if vs.Done? then Done([v] + vs.value) else vs, env2, out2)
      case Failed(error) => (Failed(error), env1, out1)
      case Exited(code) => (Exited(code), env1, out1)
      case OutOfFuel => (OutOfFuel, env1, out1)
  }

  // ----- statements -----

  function Exec(s: Stmt, env: Env, out: Output, fuel: nat): (Outcome<Val>, Env, Output)
    decreases s, 0, 0
  {
    match s
    case ExprStmt(e) => EvalExpr(e, env, out)
    case VarDecl(name, isConst, init) =>
      var (a, env1, out1) := if init.None? then (Done(VNull), env, out) else EvalExpr(init.value, env, out);
      if !a.Done? then (a, env1, out1) else
      Declaration(name, isConst, a.value, env1, out1)
    case FnDecl(_, _, _) => (Failed(Unsupported), env, out)
    case Block(stmts) =>
      var (r, env1, out1) := ExecSeq(stmts, VNull, NewScope(env), out, fuel);
      (if r.Done? then Done(VNull) else r, Popped(env1), out1)
    case If(cond, thn, els) =>
      var (c, env1, out1) := EvalExpr(cond, env, out);
      if !c.Done? then (c, env1, out1)
      else if Truthy(c.value) then Quietly(Exec(thn, env1, out1, fuel))
      else if els.Some? then Quietly(Exec(els.value, env1, out1, fuel))
      else (Done(VNull), env1, out1)
    case Loop(count, iterVar, body) =>
      var (n, env1, out1) := if count.None? then (Done(VBool(true)), env, out) else EvalExpr(count.value, env, out);
      if !n.Done? then (n, env1, out1)
      else if !n.value.VBool? && !n.value.VInt? then (Failed(NotIterable), env1, out1)
      else if n.value.VInt? && n.value.i < 0 then (Failed(NegativeCount), env1, out1)
      else
        var (r, env2, out2) := Iterate(n.value, iterVar, body, 0, LoopScope(env1, iterVar), out1, fuel);
        (r, Popped(env2), out2)
  }

  // A statement whose value is discarded.
  function Quietly(r: (Outcome<Val>, Env, Output)): (Outcome<Val>, Env, Output) {
    (if r.0.Done? then Done(VNull) else r.0, r.1, r.2)
  }

  function ExecSeq(ss: seq<Stmt>, last: Val, env: Env, out: Output, fuel: nat): (Outcome<Val>, Env, Output)
    decreases ss, 0, 0
  {
    if ss == [] then (Done(last), env, out)
    else
      var (r, env1, out1) := Exec(ss[0], env, out, fuel);
      if !r.Done? then (r, env1, out1)
      else ExecSeq(ss[1..], r.value, env1, out1, fuel)
  }

  // In a later iteration of the enclosing loop a declaration overwrites.
  predicate Redeclaring(env: Env) {
    env.Chain? && env.top.reuse && env.top.uid == env.top.prevUid
  }

  function Declaration(name: string, isConst: bool, v: Val, env: Env, out: Output): (Outcome<Val>, Env, Output) {
    if Redeclaring(env) then (Done(VNull), Overwritten(env, name, v, isConst), out)
    else
      var (env1, status) := Declared(env, name, v, isConst);
      (if status == SetExists then Failed(Redeclared(name)) else Done(VNull), env1, out)
  }

  // The scope in which the body of a loop runs; the status of the declaration is ignored.
  function LoopScope(env: Env, iterVar: Option<string>): Env {
    var scope := WithIds(NewScope(env), true, 1, 0);
    if iterVar.None? then scope else Declared(scope, iterVar.value, VInt(0), true).0
  }

  predicate Finished(limit: Val, counter: nat) {
    limit == VBool(false) || (limit.VInt? && counter >= limit.i)
  }

  // The state in which iteration number counter runs its body.
  function Entering(env: Env, counter: nat): Env {
    if env.Nil? then Nil else Chain(env.top.(prevUid := counter), env.up)
  }

  // The state after iteration number counter - 1.
  function Leaving(env: Env, iterVar: Option<string>, counter: nat): Env {
    var env1 := if env.Nil? then Nil else Chain(env.top.(uid := counter), env.up);
    if iterVar.None? then env1 else Overwritten(env1, iterVar.value, VInt(counter), true)
  }

  // A block that is the body of a loop shares one scope over all iterations.
  function ExecBody(body: Stmt, env: Env, out: Output, fuel: nat): (Outcome<Val>, Env, Output)
    decreases body, 1, 0
  {
    if body.Block? then ExecSeq(body.stmts, VNull, env, out, fuel) else Exec(body, env, out, fuel)
  }

  function Iterate(limit: Val, iterVar: Option<string>, body: Stmt, counter: nat, env: Env, out: Output, fuel: nat)
    : (Outcome<Val>, Env, Output)
    requires limit.VBool? || limit.VInt?
    decreases body, 2, if limit.VInt? then limit.i - counter else fuel
  {
    if Finished(limit, counter) then (Done(VNull), env, out)
    else if limit.VBool? && fuel == 0 then (OutOfFuel, env, out)
    else
      var (r, env1, out1) := ExecBody(body, Entering(env, counter), out, fuel);
      if !r.Done? then (r, env1, out1)
      else
        Iterate(limit, iterVar, body, counter + 1, Leaving(env1, iterVar, counter + 1), out1,
                if limit.VBool? then fuel - 1 else fuel)
  }

  // eval_root on the global scope
  function RunProgram(program: seq<Stmt>, fuel: nat): (Outcome<Val>, Env, Output) {
    ExecSeq(program, VNull, GlobalEnv(), [], fuel)
  }
}
