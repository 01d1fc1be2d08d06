/**
  What declarations and assignments do to names: which value a name has afterwards, which scopes a
  statement can add names to, and that an inner binding hides an outer one.
*/
module Scoping {
  import opened Ast
  import opened ValueMap
  import opened Env
  import opened Eval
  import opened EvalProperties
  import opened Calls

  // ----- statements in a row -----

  // Running two lists of statements in a row is running one and then, if it ended normally, the other.
  lemma {:induction false} SeqSplits(ss: seq<Stmt>, tt: seq<Stmt>, last: Val, env: Env, out: Output, fuel: nat)
    ensures var (r, env1, out1) := ExecSeq(ss, last, env, out, fuel);
      ExecSeq(ss + tt, last, env, out, fuel)
      == if r.Done? then ExecSeq(tt, r.value, env1, out1, fuel) else (r, env1, out1)
    decreases |ss|
  {
    hide Exec;
    if ss == [] {
      assert ss + tt == tt;
    } else {
      var (r, env1, out1) := Exec(ss[0], env, out, fuel);
      assert (ss + tt)[1..] == ss[1..] + tt;
      if r.Done? {
        SeqSplits(ss[1..], tt, r.value, env1, out1, fuel);
      }
    }
  }

  lemma SingleStatement(s: Stmt, last: Val, env: Env, out: Output, fuel: nat)
    ensures ExecSeq([s], last, env, out, fuel) == Exec(s, env, out, fuel)
  {
    hide Exec;
    assert [s][1..] == [];
  }

  lemma ExprStatement(e: Expr, env: Env, out: Output, fuel: nat)
    ensures Exec(ExprStmt(e), env, out, fuel) == EvalExpr(e, env, out)
  {
  }

  lemma TwoStatements(s: Stmt, t: Stmt, last: Val, env: Env, out: Output, fuel: nat)
    requires Exec(s, env, out, fuel).0.Done?
    ensures var (_, env1, out1) := Exec(s, env, out, fuel);
      ExecSeq([s, t], last, env, out, fuel) == Exec(t, env1, out1, fuel)
  {
    hide Exec, ExecSeq;
    assert [s, t] == [s] + [t];
    var (r, env1, out1) := Exec(s, env, out, fuel);
    SingleStatement(s, last, env, out, fuel);
    SeqSplits([s], [t], last, env, out, fuel);
    SingleStatement(t, r.value, env1, out1, fuel);
  }

  // ----- assignments -----

  // An assignment gives its name, as far as it is bound to no constant, the value of its right-hand
  // side and has that value; no other name changes, and without such a binding none does.
  lemma AssignmentBinds(name: string, e: Expr, env: Env, out: Output)
    requires EvalExpr(e, env, out).0.Done?
    ensures var (v, env1, out1) := EvalExpr(e, env, out);
      var (r, env2, out2) := EvalExpr(Assign(name, e), env, out);
      && out2 == out1
      && (r == Failed(Undeclared(name)) <==> Resolve(env, name).None?)
      && (r == Failed(ConstAssigned(name)) <==> Resolve(env, name).Some? && NearestIsConst(env, name))
      && (r.Done? ==> r == v && Resolve(env2, name) == Some(v.value))
      && (r.Done? || r == Failed(Undeclared(name)) || r == Failed(ConstAssigned(name)))
      && (!r.Done? ==> Alike(env1, env2))
      && (forall other :: other != name || !r.Done? ==> Resolve(env2, other) == Resolve(env1, other))
  {
    hide Resolve, Assigned;
    var (v, env1, _) := EvalExpr(e, env, out);
    AssignChangesNearest(env1, name, v.value);
    ExprEvolves(e, env, out);
    EvolvedBinding(env, env1, name);
    var (env2, status) := Assigned(env1, name, v.value);
    if status != SetOk {
      forall other
        ensures Resolve(env2, other) == Resolve(env1, other)
      {
        AlikeBinding(env1, env2, other);
      }
    }
  }

  lemma {:induction false} AlikeBinding(a: Env, b: Env, name: string)
    requires Alike(a, b)
    ensures Resolve(b, name) == Resolve(a, name) && NearestIsConst(b, name) == NearestIsConst(a, name)
  {
    if a.Chain? && name !in a.top.vars {
      AlikeBinding(a.up, b.up, name);
    }
  }

  // ----- declarations -----

  // The value of an initialiser, and what evaluating it leaves.
  function Initial(init: Option<Expr>, env: Env, out: Output): (Outcome<Val>, Env, Output) {
    if init.None? then (Done(VNull), env, out) else EvalExpr(init.value, env, out)
  }

  // The scope can take a declaration of the name.
  predicate Declarable(env: Env, name: string) { env.Chain? && !env.top.allowRedecl && name !in env.top.vars }

  lemma InitialEvolves(init: Option<Expr>, env: Env, out: Output)
    ensures Evolved(env, Initial(init, env, out).1)
  {
    EvolvedReflexive(env);
    if init.Some? {
      ExprEvolves(init.value, env, out);
    }
  }

  // Declaring a new name binds it to the value of its initialiser, or to null, as a constant
  // exactly if it says so, and no other name changes.
  lemma DeclarationBinds(name: string, isConst: bool, init: Option<Expr>, env: Env, out: Output, fuel: nat)
    requires Declarable(env, name) && Initial(init, env, out).0.Done?
    ensures var (v, env1, out1) := Initial(init, env, out);
      var (r, env2, out2) := Exec(VarDecl(name, isConst, init), env, out, fuel);
      && r == Done(VNull) && out2 == out1
      && Resolve(env2, name) == Some(v.value) && NearestIsConst(env2, name) == isConst
      && env2.Chain? && name in env2.top.vars && env2.up == env1.up
      && (forall other :: other != name ==>
            Resolve(env2, other) == Resolve(env1, other) && NearestIsConst(env2, other) == NearestIsConst(env1, other))
  {
    hide EvalExpr;
    InitialEvolves(init, env, out);
  }

  // `var x = e; x` has the value of e.
  lemma DeclaredThenRead(name: string, isConst: bool, init: Option<Expr>, env: Env, out: Output, fuel: nat)
    requires Declarable(env, name) && Initial(init, env, out).0.Done?
    ensures var (v, env1, out1) := Initial(init, env, out);
      var (r, env2, out2) := ExecSeq([VarDecl(name, isConst, init), ExprStmt(Ident(name))], VNull, env, out, fuel);
      && r == v && out2 == out1
      && forall other :: other != name ==> Resolve(env2, other) == Resolve(env1, other)
  {
    hide Initial, ExecSeq;
    DeclarationBinds(name, isConst, init, env, out, fuel);
    TwoStatements(VarDecl(name, isConst, init), ExprStmt(Ident(name)), VNull, env, out, fuel);
  }

  // `var x = e; x = f` succeeds and leaves x with the value of f; `const x = e; x = f` fails and
  // leaves it with the value of e. Every other name is what evaluating e and then f leaves.
  lemma DeclaredThenAssigned(name: string, isConst: bool, init: Option<Expr>, f: Expr, env: Env, out: Output, fuel: nat)
    requires Declarable(env, name) && Initial(init, env, out).0.Done?
    requires var (_, env2, out2) := Exec(VarDecl(name, isConst, init), env, out, fuel);
      EvalExpr(f, env2, out2).0.Done?
    ensures var (_, env2, out2) := Exec(VarDecl(name, isConst, init), env, out, fuel);
      var (w, env3, out3) := EvalExpr(f, env2, out2);
      var (r, env4, out4) := ExecSeq([VarDecl(name, isConst, init), ExprStmt(Assign(name, f))], VNull, env, out, fuel);
      && out4 == out3
      && r == (if isConst then Failed(ConstAssigned(name)) else w)
      && Resolve(env4, name) == Some(if isConst then Initial(init, env, out).0.value else w.value)
      && forall other :: other != name ==> Resolve(env4, other) == Resolve(env3, other)
  {
    hide Initial, Resolve, ExecSeq, NearestIsConst, Alike;
    DeclarationBinds(name, isConst, init, env, out, fuel);
    var (_, env2, out2) := Exec(VarDecl(name, isConst, init), env, out, fuel);
    TwoStatements(VarDecl(name, isConst, init), ExprStmt(Assign(name, f)), VNull, env, out, fuel);
    ExprStatement(Assign(name, f), env2, out2, fuel);
    hide Exec, EvalExpr;
    AssignmentBinds(name, f, env2, out2);
    ExprEvolves(f, env2, out2);
    EvolvedBinding(env2, EvalExpr(f, env2, out2).1, name);
  }

  // ----- which scopes statements add names to -----

  // From one state of the scopes to a later one of the same scopes, the innermost one kept too.
  ghost predicate Grown(a: Env, b: Env) {
    Kept(a, b) && (a.Chain? ==> Evolved(a.up, b.up))
  }

  lemma GrownTransitive(a: Env, b: Env, c: Env)
    requires Grown(a, b) && Grown(b, c)
    ensures Grown(a, c)
  {
    hide Kept, Evolved;
    KeptTransitive(a, b, c);
    KeptHasScope(a, b);
    if a.Chain? {
      EvolvedTransitive(a.up, b.up, c.up);
    }
  }

  lemma KeptHasScope(a: Env, b: Env)
    requires Kept(a, b)
    ensures a.Chain? <==> b.Chain?
  {
  }

  lemma {:induction false} EvolvedKeeps(a: Env, b: Env)
    requires Evolved(a, b)
    ensures Grown(a, b)
  {
    if a.Chain? {
      EvolvedKeeps(a.up, b.up);
    }
  }

  lemma DeclarationGrows(name: string, isConst: bool, v: Val, env: Env, out: Output)
    ensures Grown(env, Declaration(name, isConst, v, env, out).1)
  {
    hide FrameKept, Wrote;
    DeclarationKeeps(name, isConst, v, env, out);
    if env.Chain? {
      EvolvedReflexive(env.up);
    }
  }

  // A statement, run to any point, adds names to the innermost scope only, and a block or a loop
  // to no scope around it. In the other scopes no const flag changes, and no constant.
  lemma {:induction false} DeclaresLocally(s: Stmt, env: Env, out: Output, fuel: nat)
    ensures Grown(env, Exec(s, env, out, fuel).1)
    ensures s.Block? || s.Loop? || s.ExprStmt? ==> Evolved(env, Exec(s, env, out, fuel).1)
    decreases s, 0, 0
  {
    hide Kept, FrameEvolved, Declaration, Entering, Leaving, LoopScope;
    EvolvedReflexive(env);
    EvolvedKeeps(env, env);
    match s
    case ExprStmt(e) =>
      ExprEvolves(e, env, out);
      EvolvedKeeps(env, EvalExpr(e, env, out).1);
    case VarDecl(name, isConst, init) =>
      var (a, env1, out1) := if init.None? then (Done(VNull), env, out) else EvalExpr(init.value, env, out);
      InitialEvolves(init, env, out);
      EvolvedKeeps(env, env1);
      if a.Done? {
        DeclarationGrows(name, isConst, a.value, env1, out1);
        GrownTransitive(env, env1, Declaration(name, isConst, a.value, env1, out1).1);
      }
    case FnDecl(_, _, _) =>
    case Block(stmts) =>
      SeqDeclaresLocally(stmts, VNull, NewScope(env), out, fuel);
      var inner := ExecSeq(stmts, VNull, NewScope(env), out, fuel).1;
      KeptHasScope(NewScope(env), inner);
      EvolvedKeeps(env, inner.up);
    case If(cond, thn, els) =>
      var (c, env1, out1) := EvalExpr(cond, env, out);
      ExprEvolves(cond, env, out);
      EvolvedKeeps(env, env1);
      if c.Done? && Truthy(c.value) {
        DeclaresLocally(thn, env1, out1, fuel);
        GrownTransitive(env, env1, Exec(thn, env1, out1, fuel).1);
      } else if c.Done? && els.Some? {
        DeclaresLocally(els.value, env1, out1, fuel);
        GrownTransitive(env, env1, Exec(els.value, env1, out1, fuel).1);
      }
    case Loop(count, iterVar, body) =>
      var (n, env1, out1) := if count.None? then (Done(VBool(true)), env, out) else EvalExpr(count.value, env, out);
      if count.Some? {
        ExprEvolves(count.value, env, out);
      }
      EvolvedKeeps(env, env1);
      if n.Done? && (n.value.VBool? || n.value.VInt?) && !(n.value.VInt? && n.value.i < 0) {
        var inner := LoopScope(env1, iterVar);
        LoopScopeUp(env1, iterVar);
        IterationsDeclareLocally(n.value, iterVar, body, 0, inner, out1, fuel);
        var after := Iterate(n.value, iterVar, body, 0, inner, out1, fuel).1;
        EvolvedTransitive(env, env1, after.up);
        EvolvedKeeps(env, after.up);
      }
  }

  lemma LoopScopeUp(env: Env, iterVar: Option<string>)
    ensures LoopScope(env, iterVar).Chain? && LoopScope(env, iterVar).up == env
  {
    hide WithBuiltins;
  }

  lemma {:induction false} SeqDeclaresLocally(ss: seq<Stmt>, last: Val, env: Env, out: Output, fuel: nat)
    ensures Grown(env, ExecSeq(ss, last, env, out, fuel).1)
    decreases ss, 0, 0
  {
    hide Grown;
    if ss == [] {
      EvolvedReflexive(env);
      EvolvedKeeps(env, env);
    } else {
      var (r, env1, out1) := Exec(ss[0], env, out, fuel);
      DeclaresLocally(ss[0], env, out, fuel);
      if r.Done? {
        SeqDeclaresLocally(ss[1..], r.value, env1, out1, fuel);
        GrownTransitive(env, env1, ExecSeq(ss[1..], r.value, env1, out1, fuel).1);
      }
    }
  }

  lemma {:induction false} IterationsDeclareLocally(limit: Val, iterVar: Option<string>, body: Stmt, counter: nat,
                                                    env: Env, out: Output, fuel: nat)
    requires (limit.VBool? || limit.VInt?) && env.Chain?
    ensures var env' := Iterate(limit, iterVar, body, counter, env, out, fuel).1;
      env'.Chain? && Evolved(env.up, env'.up)
    decreases body, 2, if limit.VInt? then limit.i - counter else fuel
  {
    hide Kept;
    EvolvedReflexive(env.up);
    if !Finished(limit, counter) && !(limit.VBool? && fuel == 0) {
      var start := Entering(env, counter);
      BodyDeclaresLocally(body, start, out, fuel);
      var (r, env1, out1) := ExecBody(body, start, out, fuel);
      KeptHasScope(start, env1);
      if r.Done? {
        var next := Leaving(env1, iterVar, counter + 1);
        var fuel' := if limit.VBool? then fuel - 1 else fuel;
        IterationsDeclareLocally(limit, iterVar, body, counter + 1, next, out1, fuel');
        EvolvedTransitive(env.up, next.up, Iterate(limit, iterVar, body, counter + 1, next, out1, fuel').1.up);
      }
    }
  }

  lemma {:induction false} BodyDeclaresLocally(body: Stmt, env: Env, out: Output, fuel: nat)
    ensures Grown(env, ExecBody(body, env, out, fuel).1)
    decreases body, 1, 0
  {
    if body.Block? {
      SeqDeclaresLocally(body.stmts, VNull, env, out, fuel);
    } else {
      DeclaresLocally(body, env, out, fuel);
    }
  }

  // ----- inner bindings hide outer ones -----

  // Whatever scope of a binds the name, what it means outside that scope is the same in b.
  ghost predicate Hidden(a: Env, b: Env, name: string) {
    match a
    case Nil => b.Nil?
    case Chain(top, up) =>
      && b.Chain? && (name in top.vars ==> name in b.top.vars && Resolve(b.up, name) == Resolve(up, name))
      && Hidden(up, b.up, name)
  }

  lemma {:induction false} HiddenReflexive(a: Env, name: string)
    ensures Hidden(a, a, name)
  {
    if a.Chain? {
      HiddenReflexive(a.up, name);
    }
  }

  lemma {:induction false} HiddenTransitive(a: Env, b: Env, c: Env, name: string)
    requires Hidden(a, b, name) && Hidden(b, c, name)
    ensures Hidden(a, c, name)
  {
    hide Resolve;
    if a.Chain? {
      HiddenTransitive(a.up, b.up, c.up, name);
    }
  }

  lemma {:induction false} AssignedHides(env: Env, name: string, v: Val, other: string)
    ensures Hidden(env, Assigned(env, name, v).0, other)
  {
    if env.Chain? {
      AssignedHides(env.up, name, v, other);
      HiddenReflexive(env.up, other);
      AssignChangesNearest(env.up, name, v);
    }
  }

  lemma {:induction false} ExprHides(e: Expr, env: Env, out: Output, name: string)
    ensures Hidden(env, EvalExpr(e, env, out).1, name)
    decreases e, 1
  {
    hide Hidden, Assigned, Resolve;
    HiddenReflexive(env, name);
    match e
    case Binary(op, left, right) =>
      var (a, env1, out1) := EvalExpr(left, env, out);
      ExprHides(left, env, out, name);
      ExprHides(right, env1, out1, name);
      HiddenTransitive(env, env1, EvalExpr(right, env1, out1).1, name);
    case Assign(target, value) =>
      var (a, env1, _) := EvalExpr(value, env, out);
      ExprHides(value, env, out, name);
      if a.Done? {
        AssignedHides(env1, target, a.value, name);
        HiddenTransitive(env, env1, Assigned(env1, target, a.value).0, name);
      }
    case Call(_, args) =>
      ArgsHide(args, env, out, name);
    case _ =>
  }

  lemma {:induction false} ArgsHide(args: seq<Expr>, env: Env, out: Output, name: string)
    ensures Hidden(env, EvalArgs(args, env, out).1, name)
    decreases args, 0
  {
    hide Hidden;
    if args == [] {
      HiddenReflexive(env, name);
    } else {
      var (a, env1, out1) := EvalExpr(args[0], env, out);
      ExprHides(args[0], env, out, name);
      ArgsHide(args[1..], env1, out1, name);
      HiddenTransitive(env, env1, EvalArgs(args[1..], env1, out1).1, name);
    }
  }

  lemma DeclarationHides(target: string, isConst: bool, v: Val, env: Env, out: Output, name: string)
    ensures Hidden(env, Declaration(target, isConst, v, env, out).1, name)
  {
    if env.Chain? {
      HiddenReflexive(env.up, name);
    }
  }

  // Nothing that a statement does changes what a name means outside a scope that binds it.
  lemma {:induction false} InnerBindingsHide(s: Stmt, env: Env, out: Output, fuel: nat, name: string)
    ensures Hidden(env, Exec(s, env, out, fuel).1, name)
    decreases s, 0, 0
  {
    hide Hidden, Declaration, LoopScope;
    HiddenReflexive(env, name);
    match s
    case ExprStmt(e) =>
      ExprHides(e, env, out, name);
    case VarDecl(target, isConst, init) =>
      var (a, env1, out1) := if init.None? then (Done(VNull), env, out) else EvalExpr(init.value, env, out);
      if init.Some? {
        ExprHides(init.value, env, out, name);
      }
      if a.Done? {
        DeclarationHides(target, isConst, a.value, env1, out1, name);
        HiddenTransitive(env, env1, Declaration(target, isConst, a.value, env1, out1).1, name);
      }
    case FnDecl(_, _, _) =>
    case Block(stmts) =>
      SeqHides(stmts, VNull, NewScope(env), out, fuel, name);
      HiddenOutside(NewScope(env), ExecSeq(stmts, VNull, NewScope(env), out, fuel).1, name);
    case If(cond, thn, els) =>
      var (c, env1, out1) := EvalExpr(cond, env, out);
      ExprHides(cond, env, out, name);
      if c.Done? && Truthy(c.value) {
        InnerBindingsHide(thn, env1, out1, fuel, name);
        HiddenTransitive(env, env1, Exec(thn, env1, out1, fuel).1, name);
      } else if c.Done? && els.Some? {
        InnerBindingsHide(els.value, env1, out1, fuel, name);
        HiddenTransitive(env, env1, Exec(els.value, env1, out1, fuel).1, name);
      }
    case Loop(count, iterVar, body) =>
      var (n, env1, out1) := if count.None? then (Done(VBool(true)), env, out) else EvalExpr(count.value, env, out);
      if count.Some? {
        ExprHides(count.value, env, out, name);
      }
      if n.Done? && (n.value.VBool? || n.value.VInt?) && !(n.value.VInt? && n.value.i < 0) {
        var inner := LoopScope(env1, iterVar);
        LoopScopeUp(env1, iterVar);
        IterationsHide(n.value, iterVar, body, 0, inner, out1, fuel, name);
        var after := Iterate(n.value, iterVar, body, 0, inner, out1, fuel).1;
        HiddenTransitive(env, env1, after.up, name);
      }
  }

  lemma HiddenOutside(a: Env, b: Env, name: string)
    requires Hidden(a, b, name) && a.Chain?
    ensures b.Chain? && Hidden(a.up, b.up, name)
  {
    hide Resolve;
  }

  lemma {:induction false} SeqHides(ss: seq<Stmt>, last: Val, env: Env, out: Output, fuel: nat, name: string)
    ensures Hidden(env, ExecSeq(ss, last, env, out, fuel).1, name)
    decreases ss, 0, 0
  {
    hide Hidden;
    if ss == [] {
      HiddenReflexive(env, name);
    } else {
      var (r, env1, out1) := Exec(ss[0], env, out, fuel);
      InnerBindingsHide(ss[0], env, out, fuel, name);
      if r.Done? {
        SeqHides(ss[1..], r.value, env1, out1, fuel, name);
        HiddenTransitive(env, env1, ExecSeq(ss[1..], r.value, env1, out1, fuel).1, name);
      }
    }
  }

  lemma {:induction false} IterationsHide(limit: Val, iterVar: Option<string>, body: Stmt, counter: nat, env: Env,
                                          out: Output, fuel: nat, name: string)
    requires (limit.VBool? || limit.VInt?) && env.Chain?
    ensures var env' := Iterate(limit, iterVar, body, counter, env, out, fuel).1;
      env'.Chain? && Hidden(env.up, env'.up, name)
    decreases body, 2, if limit.VInt? then limit.i - counter else fuel
  {
    hide Hidden;
    HiddenReflexive(env.up, name);
    if !Finished(limit, counter) && !(limit.VBool? && fuel == 0) {
      var start := Entering(env, counter);
      if body.Block? {
        SeqHides(body.stmts, VNull, start, out, fuel, name);
      } else {
        InnerBindingsHide(body, start, out, fuel, name);
      }
      var (r, env1, out1) := ExecBody(body, start, out, fuel);
      HiddenOutside(start, env1, name);
      if r.Done? {
        var next := Leaving(env1, iterVar, counter + 1);
        var fuel' := if limit.VBool? then fuel - 1 else fuel;
        IterationsHide(limit, iterVar, body, counter + 1, next, out1, fuel', name);
        HiddenTransitive(env.up, next.up, Iterate(limit, iterVar, body, counter + 1, next, out1, fuel').1.up, name);
      }
    }
  }

  // `{ var x = e; ... }` leaves a variable x that is bound around the block with the value that
  // evaluating e left it with, whatever the rest of the block does.
  lemma BlocksHide(name: string, isConst: bool, init: Option<Expr>, ss: seq<Stmt>, env: Env, out: Output, fuel: nat)
    requires name !in Builtins() && Initial(init, NewScope(env), out).0.Done?
    ensures Resolve(Exec(Block([VarDecl(name, isConst, init)] + ss), env, out, fuel).1, name)
         == Resolve(Initial(init, NewScope(env), out).1, name)
  {
    var inner, decl := NewScope(env), VarDecl(name, isConst, init);
    AllBuiltinsAdded(map[]);
    hide WithBuiltins, NewScope, EvalExpr, Hidden, ExecSeq;
    var (_, env1, _) := Initial(init, inner, out);
    InitialEvolves(init, inner, out);
    DeclarationBinds(name, isConst, init, inner, out, fuel);
    var (r, env2, out2) := Exec(decl, inner, out, fuel);
    SeqSplits([decl], ss, VNull, inner, out, fuel);
    SingleStatement(decl, VNull, inner, out, fuel);
    SeqHides(ss, r.value, env2, out2, fuel, name);
    OuterMeaning(env2, ExecSeq(ss, r.value, env2, out2, fuel).1, name);
  }

  lemma OuterMeaning(a: Env, b: Env, name: string)
    requires Hidden(a, b, name) && a.Chain? && name in a.top.vars
    ensures b.Chain? && Resolve(b.up, name) == Resolve(a.up, name)
  {
  }
}
