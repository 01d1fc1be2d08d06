/**
  The interpreter of src/eval.c, running on chained hash tables. Each method computes what the
  reference meaning computes on the chain of finite maps that its scope stands for: values,
  errors, output and final bindings are the same. (Calls and Tables say when a program can notice
  the sizes of its tables.)
*/
module Interpreter {
  import opened Ast
  import opened ValueMap
  import opened Env
  import opened Scope
  import opened Eval

  method EvaluateExpr(scope: Scope, e: Expr, out: Output) returns (r: Outcome<Val>, out': Output)
    requires scope.Valid()
    modifies scope.Repr
    ensures scope.Valid() && fresh(scope.Repr - old(scope.Repr))
    ensures (r, scope.value, out') == EvalExpr(e, old(scope.value), out)
    ensures PlacesKept(old(scope.places), scope.places)
    decreases e, 1
  {
    hide Scope.Valid, PlacesKept;
    PlacesReflexive(scope.places);
    match e
    case IntLit(n) =>
      r, out' := Done(VInt(n)), out;
    case StrLit(s) =>
      r, out' := Done(VStr(s)), out;
    case Ident(name) =>
      var v := scope.Find(name);
      r, out' := if v.None? then Failed(Undeclared(name)) else Done(v.value), out;
    case Binary(_, _, _) =>
      r, out' := EvaluateBinary(scope, e, out);
    case Assign(_, _) =>
      r, out' := EvaluateAssignment(scope, e, out);
    case Call(_, _) =>
      r, out' := EvaluateCall(scope, e, out);
    case ArrayLit(_) =>
      r, out' := Failed(Unsupported), out;
  }

  method EvaluateBinary(scope: Scope, e: Expr, out: Output) returns (r: Outcome<Val>, out': Output)
    requires scope.Valid() && e.Binary?
    modifies scope.Repr
    ensures scope.Valid() && fresh(scope.Repr - old(scope.Repr))
    ensures (r, scope.value, out') == EvalExpr(e, old(scope.value), out)
    ensures PlacesKept(old(scope.places), scope.places)
    decreases e, 0
  {
    hide Scope.Valid, BinaryOp, PlacesKept;
    var a, b;
    a, out' := EvaluateExpr(scope, e.left, out);
    if !a.Done? {
      return a, out';
    }
    ghost var places := scope.places;
    b, out' := EvaluateExpr(scope, e.right, out');
    PlacesTransitive(old(scope.places), places, scope.places);
    if !b.Done? {
      return b, out';
    }
    r := BinaryOp(e.op, a.value, b.value);
  }

  method EvaluateAssignment(scope: Scope, e: Expr, out: Output) returns (r: Outcome<Val>, out': Output)
    requires scope.Valid() && e.Assign?
    modifies scope.Repr
    ensures scope.Valid() && fresh(scope.Repr - old(scope.Repr))
    ensures (r, scope.value, out') == EvalExpr(e, old(scope.value), out)
    ensures PlacesKept(old(scope.places), scope.places)
    decreases e, 0
  {
    hide Scope.Valid, Assigned, PlacesKept;
    r, out' := EvaluateExpr(scope, e.value, out);
    if !r.Done? {
      return;
    }
    ghost var places := scope.places;
    var status := scope.Assign(e.target, r.value);
    PlacesTransitive(old(scope.places), places, scope.places);
    if status == SetNotFound {
      r := Failed(Undeclared(e.target));
    } else if status == SetIsConst {
      r := Failed(ConstAssigned(e.target));
    }
  }

  method EvaluateCall(scope: Scope, e: Expr, out: Output) returns (r: Outcome<Val>, out': Output)
    requires scope.Valid() && e.Call?
    modifies scope.Repr
    ensures scope.Valid() && fresh(scope.Repr - old(scope.Repr))
    ensures (r, scope.value, out') == EvalExpr(e, old(scope.value), out)
    ensures PlacesKept(old(scope.places), scope.places)
    decreases e, 0
  {
    hide Scope.Valid, CallBuiltin, Resolve, Holder, PlacesKept, Where;
    out' := out;
    PlacesReflexive(scope.places);
    var f := scope.FindSlot(e.callee);
    if f.None? {
      return Failed(UndefinedFunction(e.callee)), out';
    }
    var (slots, index) := f.value;
    if !slots[index].value.VBuiltin? {
      return Failed(NotAFunction(e.callee)), out';
    }
    var vs;
    vs, out' := EvaluateArgs(scope, e.args, out);
    match vs
    case Done(vs) =>
      r, out' := InvokeFound(scope, e.callee, slots, index, vs, out', old(scope.value), old(scope.places));
    case Failed(error) =>
      r := Failed(error);
    case Exited(code) =>
      r := Exited(code);
    case OutOfFuel =>
      r := OutOfFuel;
  }

  // The call itself: the function is read through the pointer found before the arguments, unless
  // that points into an array which its table has given up since.
  method InvokeFound(scope: Scope, callee: string, slots: array<Slot>, index: nat, vs: seq<Val>, out: Output,
                     ghost before: Env, ghost places: Places)
    returns (r: Outcome<Val>, out': Output)
    requires scope.Valid() && PlacesKept(places, scope.places)
    requires Where(places, callee) == Some((slots, index)) && slots.Length == Holder(before, callee)
    ensures (r, out') == Invoke(callee, before, scope.value, vs, out)
  {
    hide Scope.Valid, CallBuiltin, Resolve, Holder, PlacesKept, Where;
    PointersKept(places, scope.places, callee);
    var now := scope.FindSlot(callee);
    if now.value.0 != slots {
      return Failed(Undefined), out;
    }
    var f := slots[index].value;
    if !f.VBuiltin? {
      return Failed(Undefined), out;
    }
    var res := CallBuiltin(f.fn, vs, out);
    r, out' := res.0, res.1;
  }

  // The outcome of a run that has already computed the values vs.
  ghost function Prepended(vs: seq<Val>, r: (Outcome<seq<Val>>, Env, Output)): (Outcome<seq<Val>>, Env, Output) {
    (if r.0.Done? then Done(vs + r.0.value) else r.0, r.1, r.2)
  }

  lemma PrependedSplits(vs: seq<Val>, v: Val, r: (Outcome<seq<Val>>, Env, Output))
    ensures Prepended([], r) == r
    ensures Prepended(vs, Prepended([v], r)) == Prepended(vs + [v], r)
  {
    if r.0.Done? {
      assert [] + r.0.value == r.0.value;
      assert vs + ([v] + r.0.value) == vs + [v] + r.0.value;
    }
  }

  method EvaluateArgs(scope: Scope, args: seq<Expr>, out: Output) returns (r: Outcome<seq<Val>>, out': Output)
    requires scope.Valid()
    modifies scope.Repr
    ensures scope.Valid() && fresh(scope.Repr - old(scope.Repr))
    ensures (r, scope.value, out') == EvalArgs(args, old(scope.value), out)
    ensures PlacesKept(old(scope.places), scope.places)
    decreases args, 0
  {
    hide Scope.Valid, EvalExpr, PlacesKept;
    var vs: seq<Val> := [];
    out' := out;
    PlacesReflexive(scope.places);
    PrependedSplits([], VNull, EvalArgs(args, scope.value, out));
    assert args[0..] == args;
    for i := 0 to |args|
      invariant scope.Valid() && fresh(scope.Repr - old(scope.Repr))
      invariant EvalArgs(args, old(scope.value), out) == Prepended(vs, EvalArgs(args[i..], scope.value, out'))
      invariant PlacesKept(old(scope.places), scope.places)
    {
      ghost var places := scope.places;
      var a;
      a, out' := EvaluateExpr(scope, args[i], out');
      PlacesTransitive(old(scope.places), places, scope.places);
      match a
      case Done(v) =>
        PrependedSplits(vs, v, EvalArgs(args[i + 1..], scope.value, out'));
        assert args[i..][1..] == args[i + 1..];
        vs := vs + [v];
      case Failed(error) =>
        return Failed(error), out';
      case Exited(code) =>
        return Exited(code), out';
      case OutOfFuel =>
        return OutOfFuel, out';
    }
    assert vs + [] == vs;
    r := Done(vs);
  }

  // ----- statements -----

  method Execute(scope: Scope, s: Stmt, out: Output, fuel: nat) returns (r: Outcome<Val>, out': Output)
    requires scope.Valid()
    modifies scope.Repr
    ensures scope.Valid() && fresh(scope.Repr - old(scope.Repr))
    ensures (r, scope.value, out') == Exec(s, old(scope.value), out, fuel)
    decreases s, 1, 0
  {
    hide Scope.Valid;
    match s
    case ExprStmt(e) =>
      r, out' := EvaluateExpr(scope, e, out);
    case VarDecl(_, _, _) =>
      r, out' := ExecuteVarDecl(scope, s, out, fuel);
    case FnDecl(_, _, _) =>
      r, out' := Failed(Unsupported), out;
    case Block(stmts) =>
      r, out' := ExecuteBlock(scope, s, out, fuel);
    case If(_, _, _) =>
      r, out' := ExecuteIf(scope, s, out, fuel);
    case Loop(_, _, _) =>
      r, out' := ExecuteLoop(scope, s, out, fuel);
  }

  method ExecuteVarDecl(scope: Scope, s: Stmt, out: Output, ghost fuel: nat) returns (r: Outcome<Val>, out': Output)
    requires scope.Valid() && s.VarDecl?
    modifies scope.Repr
    ensures scope.Valid() && fresh(scope.Repr - old(scope.Repr))
    ensures (r, scope.value, out') == Exec(s, old(scope.value), out, fuel)
  {
    hide EvalExpr, Scope.Valid, PlacesKept;
    r, out' := Done(VNull), out;
    if s.init.Some? {
      r, out' := EvaluateExpr(scope, s.init.value, out);
      if !r.Done? {
        return;
      }
    }
    r := Declare(scope, s.name, s.isConst, r.value, out');
  }

  // The declaring half of eval_var_decl.
  method Declare(scope: Scope, name: string, isConst: bool, v: Val, ghost out: Output) returns (r: Outcome<Val>)
    requires scope.Valid()
    modifies scope.Repr
    ensures scope.Valid() && fresh(scope.Repr - old(scope.Repr))
    ensures (r, scope.value, out) == Declaration(name, isConst, v, old(scope.value), out)
  {
    hide Overwritten;
    hide Declared;
    hide Valmap.Valid;
    r := Done(VNull);
    if scope.reuse && scope.uniqueId == scope.prevUniqueId {
      scope.Overwrite(name, v, isConst);
    } else {
      var status := scope.Declare(name, v, isConst);
      if status == SetExists {
        r := Failed(Redeclared(name));
      }
    }
  }

  method ExecuteBlock(scope: Scope, s: Stmt, out: Output, fuel: nat) returns (r: Outcome<Val>, out': Output)
    requires scope.Valid() && s.Block?
    modifies scope.Repr
    ensures scope.Valid() && fresh(scope.Repr - old(scope.Repr))
    ensures (r, scope.value, out') == Exec(s, old(scope.value), out, fuel)
    decreases s, 0, 0
  {
    hide NewScope;
    hide Valmap.Valid;
    var inner := new Scope.Child(scope);
    r, out' := ExecuteSeq(inner, s.stmts, out, fuel);
    if r.Done? {
      r := Done(VNull);
    }
  }

  method ExecuteIf(scope: Scope, s: Stmt, out: Output, fuel: nat) returns (r: Outcome<Val>, out': Output)
    requires scope.Valid() && s.If?
    modifies scope.Repr
    ensures scope.Valid() && fresh(scope.Repr - old(scope.Repr))
    ensures (r, scope.value, out') == Exec(s, old(scope.value), out, fuel)
    decreases s, 0, 0
  {
    hide Scope.Valid;
    hide EvalExpr;
    r, out' := EvaluateExpr(scope, s.cond, out);
    if !r.Done? {
      return;
    }
    if Truthy(r.value) {
      r, out' := Execute(scope, s.thn, out', fuel);
    } else if s.els.Some? {
      r, out' := Execute(scope, s.els.value, out', fuel);
    }
    if r.Done? {
      r := Done(VNull);
    }
  }

  // eval_root, eval_block_no_scope and the loop of eval_block
  method ExecuteSeq(scope: Scope, ss: seq<Stmt>, out: Output, fuel: nat) returns (r: Outcome<Val>, out': Output)
    requires scope.Valid()
    modifies scope.Repr
    ensures scope.Valid() && fresh(scope.Repr - old(scope.Repr))
    ensures (r, scope.value, out') == ExecSeq(ss, VNull, old(scope.value), out, fuel)
    decreases ss, 0, 0
  {
    hide Scope.Valid;
    hide Exec;
    var last := VNull;
    out' := out;
    for i := 0 to |ss|
      invariant scope.Valid() && fresh(scope.Repr - old(scope.Repr))
      invariant ExecSeq(ss, VNull, old(scope.value), out, fuel) == ExecSeq(ss[i..], last, scope.value, out', fuel)
    {
      r, out' := Execute(scope, ss[i], out', fuel);
      if !r.Done? {
        return;
      }
      last := r.value;
    }
    r := Done(last);
  }

  method ExecuteLoop(scope: Scope, s: Stmt, out: Output, fuel: nat) returns (r: Outcome<Val>, out': Output)
    requires scope.Valid() && s.Loop?
    modifies scope.Repr
    ensures scope.Valid() && fresh(scope.Repr - old(scope.Repr))
    ensures (r, scope.value, out') == Exec(s, old(scope.value), out, fuel)
    decreases s, 0, 0
  {
    hide EvalExpr;
    hide Iterate;
    hide LoopScope;
    hide Valmap.Valid;
    r, out' := Done(VBool(true)), out;
    if s.count.Some? {
      r, out' := EvaluateExpr(scope, s.count.value, out);
      if !r.Done? {
        return;
      }
    }
    if !r.value.VBool? && !r.value.VInt? {
      return Failed(NotIterable), out';
    }
    if r.value.VInt? && r.value.i < 0 {
      return Failed(NegativeCount), out';
    }
    var inner := OpenLoopScope(scope, s.iterVar);
    r, out' := ExecuteIterations(inner, r.value, s.iterVar, s.loopBody, out', fuel);
  }

  method OpenLoopScope(scope: Scope, iterVar: Option<string>) returns (inner: Scope)
    requires scope.Valid()
    ensures inner.Valid() && fresh(inner.Repr - scope.Repr) && inner.parent == scope
    ensures inner.value == LoopScope(scope.value, iterVar)
  {
    hide NewScope;
    hide Declared;
    hide Valmap.Valid;
    inner := new Scope.Child(scope);
    inner.SetIds(true, 1, 0);
    if iterVar.Some? {
      var _ := inner.Declare(iterVar.value, VInt(0), true);
    }
  }

  method ExecuteBody(scope: Scope, body: Stmt, out: Output, fuel: nat) returns (r: Outcome<Val>, out': Output)
    requires scope.Valid()
    modifies scope.Repr
    ensures scope.Valid() && fresh(scope.Repr - old(scope.Repr))
    ensures (r, scope.value, out') == ExecBody(body, old(scope.value), out, fuel)
    decreases body, 2, 0
  {
    hide Scope.Valid;
    if body.Block? {
      r, out' := ExecuteSeq(scope, body.stmts, out, fuel);
    } else {
      r, out' := Execute(scope, body, out, fuel);
    }
  }

  // The while loop of eval_loop_stmt; running out of fuel stands for a loop that never ends.
  method ExecuteIterations(scope: Scope, limit: Val, iterVar: Option<string>, body: Stmt, out: Output, fuel: nat)
    returns (r: Outcome<Val>, out': Output)
    requires scope.Valid() && (limit.VBool? || limit.VInt?)
    modifies scope.Repr
    ensures scope.Valid() && fresh(scope.Repr - old(scope.Repr))
    ensures (r, scope.value, out') == Iterate(limit, iterVar, body, 0, old(scope.value), out, fuel)
    decreases body, 3, 0
  {
    hide Scope.Valid;
    hide ExecBody;
    var counter: nat, left := 0, fuel;
    out' := out;
    while !Finished(limit, counter)
      invariant scope.Valid() && fresh(scope.Repr - old(scope.Repr))
      invariant Iterate(limit, iterVar, body, 0, old(scope.value), out, fuel)
             == Iterate(limit, iterVar, body, counter, scope.value, out', left)
      decreases if limit.VInt? then limit.i - counter else left
    {
      if limit.VBool? {
        if left == 0 {
          return OutOfFuel, out';
        }
      }
      EnterIteration(scope, counter);
      r, out' := ExecuteBody(scope, body, out', left);
      if !r.Done? {
        return;
      }
      counter := counter + 1;
      LeaveIteration(scope, iterVar, counter);
      left := if limit.VBool? then left - 1 else left;
    }
    r := Done(VNull);
  }

  method EnterIteration(scope: Scope, counter: nat)
    requires scope.Valid()
    modifies scope
    ensures scope.Valid() && scope.Repr == old(scope.Repr)
    ensures scope.value == Entering(old(scope.value), counter)
  {
    hide Valmap.Valid;
    scope.SetIds(scope.reuse, scope.uniqueId, counter);
  }

  method LeaveIteration(scope: Scope, iterVar: Option<string>, counter: nat)
    requires scope.Valid()
    modifies scope.Repr
    ensures scope.Valid() && fresh(scope.Repr - old(scope.Repr))
    ensures scope.value == Leaving(old(scope.value), iterVar, counter)
  {
    hide Valmap.Valid;
    hide Overwritten;
    scope.SetIds(scope.reuse, counter, scope.prevUniqueId);
    if iterVar.Some? {
      scope.Overwrite(iterVar.value, VInt(counter), true);
    }
  }

  // process_file: a program on a fresh global scope
  method Interpret(program: seq<Stmt>, fuel: nat) returns (r: Outcome<Val>, out: Output, scope: Scope)
    ensures scope.Valid() && fresh(scope.Repr)
    ensures (r, scope.value, out) == RunProgram(program, fuel)
  {
    hide Scope.Valid;
    scope := CreateGlobal();
    r, out := ExecuteSeq(scope, program, [], fuel);
  }
}
