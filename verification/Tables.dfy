/**
  Programs without assignments among the arguments of their calls cannot notice the hash tables
  their variables live in: runs that differ only in the sizes of the tables are the same.
*/
module Tables {
  import opened Ast
  import opened ValueMap
  import opened Env
  import opened Eval
  import opened EvalProperties
  import opened Calls

  predicate CalmExpr(e: Expr) {
    match e
    case Binary(_, left, right) => CalmExpr(left) && CalmExpr(right)
    case Assign(_, value) => CalmExpr(value)
    case Call(_, args) => forall a :: a in args ==> AssignmentFree(a) && CalmExpr(a)
    case _ => true
  }

  predicate Calm(s: Stmt) {
    match s
    case ExprStmt(e) => CalmExpr(e)
    case VarDecl(_, _, init) => init.Some? ==> CalmExpr(init.value)
    case FnDecl(_, _, _) => true
    case Block(stmts) => forall t :: t in stmts ==> Calm(t)
    case If(cond, thn, els) => CalmExpr(cond) && Calm(thn) && (els.Some? ==> Calm(els.value))
    case Loop(count, _, body) => (count.Some? ==> CalmExpr(count.value)) && Calm(body)
  }

  // The same outcome and output, and bindings that differ in the sizes of their tables only.
  ghost predicate SameRun<T>(p: (Outcome<T>, Env, Output), q: (Outcome<T>, Env, Output)) {
    p.0 == q.0 && Alike(p.1, q.1) && p.2 == q.2
  }

  lemma {:induction false} AlikeResolve(a: Env, b: Env, name: string)
    requires Alike(a, b)
    ensures Resolve(a, name) == Resolve(b, name)
  {
    if a.Chain? {
      AlikeResolve(a.up, b.up, name);
    }
  }

  lemma {:induction false} AlikeAssigned(a: Env, b: Env, name: string, v: Val)
    requires Alike(a, b)
    ensures Alike(Assigned(a, name, v).0, Assigned(b, name, v).0)
    ensures Assigned(a, name, v).1 == Assigned(b, name, v).1
  {
    hide Write, Room;
    if a.Chain? {
      AlikeAssigned(a.up, b.up, name, v);
    }
  }

  lemma AlikeDeclaration(name: string, isConst: bool, v: Val, a: Env, b: Env, out: Output)
    requires Alike(a, b)
    ensures SameRun(Declaration(name, isConst, v, a, out), Declaration(name, isConst, v, b, out))
  {
    hide Write, Room;
  }

  lemma {:induction false} ExprAlike(e: Expr, a: Env, b: Env, out: Output)
    requires Alike(a, b) && CalmExpr(e)
    ensures SameRun(EvalExpr(e, a, out), EvalExpr(e, b, out))
    decreases e, 1
  {
    hide Assigned, Resolve, Holder, CallBuiltin, BinaryOp;
    match e
    case Ident(name) =>
      AlikeResolve(a, b, name);
    case Binary(_, left, right) =>
      ExprAlike(left, a, b, out);
      var (_, a1, out1) := EvalExpr(left, a, out);
      ExprAlike(right, a1, EvalExpr(left, b, out).1, out1);
    case Assign(name, value) =>
      ExprAlike(value, a, b, out);
      var (v, a1, _) := EvalExpr(value, a, out);
      if v.Done? {
        AlikeAssigned(a1, EvalExpr(value, b, out).1, name, v.value);
      }
    case Call(callee, args) =>
      ArgsAlike(args, a, b, out);
      NothingAssignedByArgs(args, a, out);
      NothingAssignedByArgs(args, b, out);
      AlikeResolve(a, b, callee);
    case _ =>
  }

  lemma {:induction false} ArgsAlike(args: seq<Expr>, a: Env, b: Env, out: Output)
    requires Alike(a, b) && forall e :: e in args ==> CalmExpr(e)
    ensures SameRun(EvalArgs(args, a, out), EvalArgs(args, b, out))
    decreases args, 0
  {
    hide EvalExpr;
    if args != [] {
      ExprAlike(args[0], a, b, out);
      var (_, a1, out1) := EvalExpr(args[0], a, out);
      ArgsAlike(args[1..], a1, EvalExpr(args[0], b, out).1, out1);
    }
  }

  lemma {:induction false} ExecAlike(s: Stmt, a: Env, b: Env, out: Output, fuel: nat)
    requires Alike(a, b) && Calm(s)
    ensures SameRun(Exec(s, a, out, fuel), Exec(s, b, out, fuel))
    decreases s, 0, 0
  {
    hide EvalExpr, Declaration, ExecSeq, Iterate, CalmExpr, LoopScope, NewScope;
    match s
    case ExprStmt(e) =>
      ExprAlike(e, a, b, out);
    case VarDecl(name, isConst, init) =>
      if init.Some? {
        ExprAlike(init.value, a, b, out);
        var (v, a1, out1) := EvalExpr(init.value, a, out);
        if v.Done? {
          AlikeDeclaration(name, isConst, v.value, a1, EvalExpr(init.value, b, out).1, out1);
        }
      } else {
        AlikeDeclaration(name, isConst, VNull, a, b, out);
      }
    case FnDecl(_, _, _) =>
    case Block(stmts) =>
      AlikeNewScope(a, b);
      SeqAlike(stmts, VNull, NewScope(a), NewScope(b), out, fuel);
    case If(cond, thn, els) =>
      ExprAlike(cond, a, b, out);
      var (c, a1, out1) := EvalExpr(cond, a, out);
      var b1 := EvalExpr(cond, b, out).1;
      if c.Done? && Truthy(c.value) {
        ExecAlike(thn, a1, b1, out1, fuel);
      } else if c.Done? && els.Some? {
        ExecAlike(els.value, a1, b1, out1, fuel);
      }
    case Loop(count, iterVar, body) =>
      LoopAlike(s, a, b, out, fuel);
  }

  lemma AlikeNewScope(a: Env, b: Env)
    requires Alike(a, b)
    ensures Alike(NewScope(a), NewScope(b)) && NewScope(a).Chain? && NewScope(b).Chain?
  {
    hide WithBuiltins;
  }

  lemma AlikeLoopScope(a: Env, b: Env, iterVar: Option<string>)
    requires Alike(a, b)
    ensures Alike(LoopScope(a, iterVar), LoopScope(b, iterVar)) && LoopScope(a, iterVar).Chain? && LoopScope(b, iterVar).Chain?
  {
    hide WithBuiltins, Write;
  }

  lemma {:induction false} LoopAlike(s: Stmt, a: Env, b: Env, out: Output, fuel: nat)
    requires s.Loop? && Alike(a, b) && Calm(s)
    ensures SameRun(Exec(s, a, out, fuel), Exec(s, b, out, fuel))
    decreases s.loopBody, 3, 0
  {
    hide EvalExpr, Iterate, CalmExpr, LoopScope;
    var (n, a1, out1) := if s.count.None? then (Done(VBool(true)), a, out) else EvalExpr(s.count.value, a, out);
    var b1 := if s.count.None? then b else EvalExpr(s.count.value, b, out).1;
    if s.count.Some? {
      ExprAlike(s.count.value, a, b, out);
    }
    if n.Done? && (n.value.VBool? || n.value.VInt?) {
      AlikeLoopScope(a1, b1, s.iterVar);
      IterateAlike(n.value, s.iterVar, s.loopBody, 0, LoopScope(a1, s.iterVar), LoopScope(b1, s.iterVar), out1, fuel);
    }
  }

  lemma {:induction false} SeqAlike(ss: seq<Stmt>, last: Val, a: Env, b: Env, out: Output, fuel: nat)
    requires Alike(a, b) && forall s :: s in ss ==> Calm(s)
    ensures SameRun(ExecSeq(ss, last, a, out, fuel), ExecSeq(ss, last, b, out, fuel))
    decreases ss, 0, 0
  {
    hide Exec, Calm;
    if ss != [] {
      ExecAlike(ss[0], a, b, out, fuel);
      var (r, a1, out1) := Exec(ss[0], a, out, fuel);
      if r.Done? {
        SeqAlike(ss[1..], r.value, a1, Exec(ss[0], b, out, fuel).1, out1, fuel);
      }
    }
  }

  lemma AlikeIteration(a: Env, b: Env, iterVar: Option<string>, counter: nat)
    requires Alike(a, b)
    ensures Alike(Entering(a, counter), Entering(b, counter))
    ensures Alike(Leaving(a, iterVar, counter), Leaving(b, iterVar, counter))
  {
    hide Write, Room;
  }

  lemma {:induction false} IterateAlike(limit: Val, iterVar: Option<string>, body: Stmt, counter: nat, a: Env, b: Env,
                                        out: Output, fuel: nat)
    requires (limit.VBool? || limit.VInt?) && Alike(a, b) && Calm(body)
    ensures SameRun(Iterate(limit, iterVar, body, counter, a, out, fuel), Iterate(limit, iterVar, body, counter, b, out, fuel))
    decreases body, 2, if limit.VInt? then limit.i - counter else fuel
  {
    hide Exec, ExecSeq, Entering, Leaving, Alike;
    if !Finished(limit, counter) && !(limit.VBool? && fuel == 0) {
      AlikeIteration(a, b, iterVar, counter);
      var a0, b0 := Entering(a, counter), Entering(b, counter);
      if body.Block? {
        SeqAlike(body.stmts, VNull, a0, b0, out, fuel);
      } else {
        ExecAlike(body, a0, b0, out, fuel);
      }
      var (r, a1, out1) := ExecBody(body, a0, out, fuel);
      var b1 := ExecBody(body, b0, out, fuel).1;
      if r.Done? {
        AlikeIteration(a1, b1, iterVar, counter + 1);
        IterateAlike(limit, iterVar, body, counter + 1, Leaving(a1, iterVar, counter + 1), Leaving(b1, iterVar, counter + 1),
                     out1, if limit.VBool? then fuel - 1 else fuel);
      }
    }
  }

  // The global scope in a table of another size.
  function GlobalOf(capacity: Capacity): Env {
    Chain(GlobalEnv().top.(capacity := capacity), Nil)
  }

  // The outcome and the output of a program, and what its names are bound to in the end, do not
  // depend on the table it starts with.
  lemma TablesUnnoticed(program: seq<Stmt>, capacity: Capacity, fuel: nat)
    requires forall s :: s in program ==> Calm(s)
    ensures SameRun(RunProgram(program, fuel), ExecSeq(program, VNull, GlobalOf(capacity), [], fuel))
  {
    hide ExecSeq, WithBuiltins;
    SeqAlike(program, VNull, GlobalEnv(), GlobalOf(capacity), [], fuel);
  }
}
