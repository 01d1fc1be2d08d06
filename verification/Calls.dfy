/**
  Which function a call calls. The function is looked up before the arguments and read through the
  pointer found only after them, so an assignment among the arguments can replace it or move the
  table it lives in. This module says when that happens, and that nothing else in a program
  depends on its tables.
*/
module Calls {
  import opened Ast
  import opened ValueMap
  import opened Env
  import opened Eval
  import opened EvalProperties

  // ----- what evaluating an expression changes -----

  // No expression adds a name, changes a flag or a constant; a table grows only if it was due.
  ghost predicate FrameEvolved(a: Frame, b: Frame) {
    && b == a.(vars := b.vars, capacity := b.capacity)
    && b.vars.Keys == a.vars.Keys
    && (forall k :: k in a.vars ==>
          b.vars[k].isConst == a.vars[k].isConst && (a.vars[k].isConst ==> b.vars[k] == a.vars[k]))
    && b.capacity >= a.capacity && (!Due(|a.vars|, a.capacity) ==> b.capacity == a.capacity)
  }

  ghost predicate Evolved(a: Env, b: Env) {
    match a
    case Nil => b.Nil?
    case Chain(top, up) => b.Chain? && FrameEvolved(top, b.top) && Evolved(up, b.up)
  }

  lemma {:induction false} EvolvedReflexive(a: Env)
    ensures Evolved(a, a)
  {
    if a.Chain? {
      EvolvedReflexive(a.up);
    }
  }

  lemma FrameEvolvedTransitive(a: Frame, b: Frame, c: Frame)
    requires FrameEvolved(a, b) && FrameEvolved(b, c)
    ensures FrameEvolved(a, c)
  {
    assert |a.vars.Keys| == |a.vars| && |b.vars.Keys| == |b.vars|;
  }

  lemma {:induction false} EvolvedTransitive(a: Env, b: Env, c: Env)
    requires Evolved(a, b) && Evolved(b, c)
    ensures Evolved(a, c)
  {
    hide FrameEvolved;
    if a.Chain? {
      FrameEvolvedTransitive(a.top, b.top, c.top);
      EvolvedTransitive(a.up, b.up, c.up);
    }
  }

  lemma WroteEvolves(f: Frame, name: string, v: Val)
    ensures FrameEvolved(f, Wrote(f, name, v, false, NoCreate, true).0)
  {
  }

  lemma {:induction false} AssignedEvolves(env: Env, name: string, v: Val)
    ensures Evolved(env, Assigned(env, name, v).0)
  {
    hide FrameEvolved, Wrote;
    if env.Chain? {
      WroteEvolves(env.top, name, v);
      AssignedEvolves(env.up, name, v);
      EvolvedReflexive(env.up);
    }
  }

  lemma {:induction false} ExprEvolves(e: Expr, env: Env, out: Output)
    ensures Evolved(env, EvalExpr(e, env, out).1)
    decreases e, 1
  {
    hide Assigned;
    EvolvedReflexive(env);
    match e
    case Binary(op, left, right) =>
      var (a, env1, out1) := EvalExpr(left, env, out);
      ExprEvolves(left, env, out);
      ExprEvolves(right, env1, out1);
      EvolvedTransitive(env, env1, EvalExpr(right, env1, out1).1);
    case Assign(name, value) =>
      var (a, env1, _) := EvalExpr(value, env, out);
      ExprEvolves(value, env, out);
      if a.Done? {
        AssignedEvolves(env1, name, a.value);
        EvolvedTransitive(env, env1, Assigned(env1, name, a.value).0);
      }
    case Call(_, args) =>
      ArgsEvolve(args, env, out);
    case _ =>
  }

  lemma {:induction false} ArgsEvolve(args: seq<Expr>, env: Env, out: Output)
    ensures Evolved(env, EvalArgs(args, env, out).1)
    decreases args, 0
  {
    if args == [] {
      EvolvedReflexive(env);
    } else {
      var (a, env1, out1) := EvalExpr(args[0], env, out);
      ExprEvolves(args[0], env, out);
      ArgsEvolve(args[1..], env1, out1);
      EvolvedTransitive(env, env1, EvalArgs(args[1..], env1, out1).1);
    }
  }

  // The table that binds name grows at its next write.
  predicate DueAt(env: Env, name: string) {
    match env
    case Nil => false
    case Chain(top, up) => if name in top.vars then Due(|top.vars|, top.capacity) else DueAt(up, name)
  }

  // A constant keeps its value, and a table that is not due keeps its size.
  lemma {:induction false} EvolvedBinding(a: Env, b: Env, name: string)
    requires Evolved(a, b)
    ensures Resolve(b, name).Some? <==> Resolve(a, name).Some?
    ensures NearestIsConst(b, name) == NearestIsConst(a, name)
    ensures NearestIsConst(a, name) ==> Resolve(b, name) == Resolve(a, name)
    ensures !DueAt(a, name) ==> Holder(b, name) == Holder(a, name)
  {
    if a.Chain? && name !in a.top.vars {
      EvolvedBinding(a.up, b.up, name);
    }
  }

  // ----- one call -----

  // The call calls the function that its name was bound to before the arguments.
  ghost predicate CallsItsCallee(callee: string, args: seq<Expr>, env: Env, out: Output) {
    var (vs, env1, out1) := EvalArgs(args, env, out);
    vs.Done? && Resolve(env, callee).Some? && Resolve(env, callee).value.VBuiltin? ==>
      var (r, out2) := CallBuiltin(Resolve(env, callee).value.fn, vs.value, out1);
      EvalExpr(Call(callee, args), env, out) == (r, env1, out2)
  }

  lemma BuiltinsDiffer(f: string, g: string, vs: seq<Val>, out: Output)
    ensures f != g ==> CallBuiltin(f, vs, out) != CallBuiltin(g, vs, out)
    ensures CallBuiltin(f, vs, out).0 != Failed(Undefined)
  {
    assert |out + ShownList(vs) + [Ch('\n')]| != |out + ShownList(vs)|;
  }

  // A call calls its callee if and only if the arguments left the binding and its table alone.
  lemma CalleeAfterArguments(callee: string, args: seq<Expr>, env: Env, out: Output)
    requires Resolve(env, callee).Some? && Resolve(env, callee).value.VBuiltin?
    requires EvalArgs(args, env, out).0.Done?
    ensures var env1 := EvalArgs(args, env, out).1;
      CallsItsCallee(callee, args, env, out)
      <==> Holder(env1, callee) == Holder(env, callee) && Resolve(env1, callee) == Resolve(env, callee)
  {
    hide CallBuiltin, Holder, Resolve;
    var (vs, env1, out1) := EvalArgs(args, env, out);
    var fn := Resolve(env, callee).value.fn;
    BuiltinsDiffer(fn, fn, vs.value, out1);
    if Resolve(env1, callee).Some? && Resolve(env1, callee).value.VBuiltin? {
      BuiltinsDiffer(fn, Resolve(env1, callee).value.fn, vs.value, out1);
    }
  }

  // Calling a name that is not bound, or not to a function, fails before any argument is evaluated.
  lemma OnlyFunctionsCalled(callee: string, args: seq<Expr>, env: Env, out: Output)
    ensures var r := EvalExpr(Call(callee, args), env, out);
      && (Resolve(env, callee).None? ==>
            r == (Failed(UndefinedFunction(callee)), env, out)
            && EvalExpr(Ident(callee), env, out) == (Failed(Undeclared(callee)), env, out))
      && (Resolve(env, callee).Some? && !Resolve(env, callee).value.VBuiltin? ==>
            r == (Failed(NotAFunction(callee)), env, out))
  {
    hide EvalArgs, Invoke;
  }

  // ----- calls without assignments among their arguments -----

  predicate AssignmentFree(e: Expr) {
    match e
    case Binary(_, left, right) => AssignmentFree(left) && AssignmentFree(right)
    case Assign(_, _) => false
    case Call(_, args) => forall a :: a in args ==> AssignmentFree(a)
    case ArrayLit(elems) => forall a :: a in elems ==> AssignmentFree(a)
    case _ => true
  }

  lemma {:induction false} NothingAssigned(e: Expr, env: Env, out: Output)
    requires AssignmentFree(e)
    ensures EvalExpr(e, env, out).1 == env
    decreases e, 1
  {
    match e
    case Binary(_, left, right) =>
      NothingAssigned(left, env, out);
      NothingAssigned(right, env, EvalExpr(left, env, out).2);
    case Call(_, args) =>
      NothingAssignedByArgs(args, env, out);
    case _ =>
  }

  lemma {:induction false} NothingAssignedByArgs(args: seq<Expr>, env: Env, out: Output)
    requires forall a :: a in args ==> AssignmentFree(a)
    ensures EvalArgs(args, env, out).1 == env
    decreases args, 0
  {
    if args != [] {
      NothingAssigned(args[0], env, out);
      NothingAssignedByArgs(args[1..], env, EvalExpr(args[0], env, out).2);
    }
  }

  lemma PlainArguments(callee: string, args: seq<Expr>, env: Env, out: Output)
    requires forall a :: a in args ==> AssignmentFree(a)
    ensures CallsItsCallee(callee, args, env, out)
  {
    hide CallBuiltin;
    NothingAssignedByArgs(args, env, out);
  }

  // ----- names that are safe to call -----

  // An assignment to x succeeds and checks the table that binds callee on its way.
  predicate Reaches(env: Env, callee: string, x: string) {
    match env
    case Nil => false
    case Chain(top, up) =>
      if callee in top.vars then Resolve(env, x).Some? && !NearestIsConst(env, x)
      else x !in top.vars && Reaches(up, callee, x)
  }

  // The callee can be reassigned, or its table is due and some assignment reaches it.
  ghost predicate Exposed(env: Env, callee: string) {
    !NearestIsConst(env, callee) || (DueAt(env, callee) && exists x :: Reaches(env, callee, x))
  }

  lemma {:induction false} EvolvedReaches(a: Env, b: Env, callee: string, x: string)
    requires Evolved(a, b)
    ensures Reaches(b, callee, x) == Reaches(a, callee, x)
  {
    if a.Chain? {
      EvolvedBinding(a, b, x);
      EvolvedReaches(a.up, b.up, callee, x);
    }
  }

  lemma {:induction false} ReachingGrows(env: Env, callee: string, x: string, v: Val)
    requires Reaches(env, callee, x) && DueAt(env, callee)
    ensures Assigned(env, x, v).1 == SetOk
    ensures Holder(Assigned(env, x, v).0, callee) > Holder(env, callee)
  {
    AssignChangesNearest(env, x, v);
    if callee !in env.top.vars {
      ReachingGrows(env.up, callee, x, v);
    }
  }

  lemma {:induction false} OthersLeaveTable(env: Env, callee: string, x: string, v: Val)
    requires Assigned(env, x, v).1 == SetOk && !Reaches(env, callee, x)
    ensures Holder(Assigned(env, x, v).0, callee) == Holder(env, callee)
  {
    AssignChangesNearest(env, x, v);
    if env.Chain? && callee !in env.top.vars && x !in env.top.vars {
      OthersLeaveTable(env.up, callee, x, v);
    }
  }

  // Every call of a name calls what the name is bound to, whatever its arguments, if and only if
  // the name is constant and its table is not both due and within reach of an assignment.
  lemma SafeToCall(callee: string, env: Env)
    requires Resolve(env, callee).Some? && Resolve(env, callee).value.VBuiltin?
    ensures (forall args, out :: CallsItsCallee(callee, args, env, out)) <==> !Exposed(env, callee)
  {
    hide CallsItsCallee, Reaches, Resolve, Holder, DueAt;
    if !Exposed(env, callee) {
      forall args, out
        ensures CallsItsCallee(callee, args, env, out)
      {
        UnexposedCall(callee, args, env, out);
      }
    } else if !NearestIsConst(env, callee) {
      AssignmentCall(callee, callee, env);
    } else {
      var x :| Reaches(env, callee, x);
      AssignmentCall(callee, x, env);
    }
  }

  lemma UnexposedCall(callee: string, args: seq<Expr>, env: Env, out: Output)
    requires Resolve(env, callee).Some? && Resolve(env, callee).value.VBuiltin? && !Exposed(env, callee)
    ensures CallsItsCallee(callee, args, env, out)
  {
    if EvalArgs(args, env, out).0.Done? {
      hide CallsItsCallee, Reaches, Resolve, Holder, DueAt, EvalArgs;
      CalleeAfterArguments(callee, args, env, out);
      ArgsEvolve(args, env, out);
      EvolvedBinding(env, EvalArgs(args, env, out).1, callee);
      if DueAt(env, callee) {
        ArgsMove(args, env, out, callee);
      }
    }
  }

  // `callee(x = 0)`
  lemma AssignmentCall(callee: string, x: string, env: Env)
    requires Resolve(env, callee).Some? && Resolve(env, callee).value.VBuiltin?
    requires (x == callee && !NearestIsConst(env, callee)) || (Reaches(env, callee, x) && DueAt(env, callee))
    ensures !CallsItsCallee(callee, [Assign(x, IntLit(0))], env, [])
  {
    hide CallsItsCallee, Reaches, Resolve, Holder, DueAt;
    var arg := Assign(x, IntLit(0));
    AssignChangesNearest(env, x, VInt(0));
    OnlyAssignable(env, callee, x);
    if x != callee || NearestIsConst(env, callee) {
      ReachingGrows(env, callee, x, VInt(0));
    }
    assert EvalExpr(arg, env, []) == (Done(VInt(0)), Assigned(env, x, VInt(0)).0, []);
    OneArgument(arg, env, []);
    CalleeAfterArguments(callee, [arg], env, []);
  }

  lemma {:induction false} OnlyAssignable(env: Env, callee: string, x: string)
    ensures Reaches(env, callee, x) ==> Resolve(env, x).Some? && !NearestIsConst(env, x)
  {
    if env.Chain? {
      OnlyAssignable(env.up, callee, x);
    }
  }

  lemma OneArgument(e: Expr, env: Env, out: Output)
    requires EvalExpr(e, env, out).0.Done?
    ensures var (a, env1, out1) := EvalExpr(e, env, out);
      EvalArgs([e], env, out) == (Done([a.value]), env1, out1)
  {
    var (a, env1, out1) := EvalExpr(e, env, out);
    assert [e][1..] == [];
    assert EvalArgs([], env1, out1) == (Done([]), env1, out1);
    assert [a.value] + [] == [a.value];
  }

  // ----- when the table of one call moves -----

  // The names assigned in an expression. All of them are, if it evaluates to a value.
  function AssignedIn(e: Expr): set<string>
    decreases e, 1
  {
    match e
    case Binary(_, left, right) => AssignedIn(left) + AssignedIn(right)
    case Assign(name, value) => AssignedIn(value) + {name}
    case Call(_, args) => AssignedInArgs(args)
    case _ => {}
  }

  function AssignedInArgs(args: seq<Expr>): set<string>
    decreases args, 0
  {
    if args == [] then {} else AssignedIn(args[0]) + AssignedInArgs(args[1..])
  }

  // One of the names reaches the table of the callee, which is due.
  ghost predicate Moving(env: Env, callee: string, names: set<string>) {
    DueAt(env, callee) && exists x :: x in names && Reaches(env, callee, x)
  }

  lemma {:induction false} EvolvedHolder(a: Env, b: Env, callee: string)
    requires Evolved(a, b)
    ensures Holder(b, callee) >= Holder(a, callee)
    ensures Holder(b, callee) == Holder(a, callee) ==> DueAt(b, callee) == DueAt(a, callee)
  {
    if a.Chain? {
      assert |a.top.vars.Keys| == |a.top.vars| && |b.top.vars.Keys| == |b.top.vars|;
      EvolvedHolder(a.up, b.up, callee);
    }
  }

  // Two evaluations in a row move the table if one of them does.
  lemma MovesInTurn(a: Env, b: Env, c: Env, callee: string, first: set<string>, second: set<string>)
    requires Evolved(a, b) && Evolved(b, c)
    requires Holder(b, callee) != Holder(a, callee) <==> Moving(a, callee, first)
    requires Holder(c, callee) != Holder(b, callee) <==> Moving(b, callee, second)
    ensures Holder(c, callee) != Holder(a, callee) <==> Moving(a, callee, first + second)
  {
    hide Evolved, Holder, DueAt, Reaches;
    EvolvedHolder(a, b, callee);
    EvolvedHolder(b, c, callee);
    forall x
      ensures Reaches(b, callee, x) == Reaches(a, callee, x)
    {
      EvolvedReaches(a, b, callee, x);
    }
  }

  lemma AssignmentMoves(env: Env, callee: string, x: string, v: Val)
    requires Assigned(env, x, v).1 == SetOk
    ensures Holder(Assigned(env, x, v).0, callee) != Holder(env, callee) <==> Moving(env, callee, {x})
  {
    hide Assigned, Holder, DueAt, Reaches;
    if !Reaches(env, callee, x) {
      OthersLeaveTable(env, callee, x, v);
    } else if DueAt(env, callee) {
      ReachingGrows(env, callee, x, v);
    } else {
      AssignedEvolves(env, x, v);
      EvolvedBinding(env, Assigned(env, x, v).0, callee);
    }
  }

  lemma {:induction false} ExprMoves(e: Expr, env: Env, out: Output, callee: string)
    requires EvalExpr(e, env, out).0.Done?
    ensures Holder(EvalExpr(e, env, out).1, callee) != Holder(env, callee) <==> Moving(env, callee, AssignedIn(e))
    decreases e, 1
  {
    hide Holder, Assigned, Reaches, Invoke, DueAt, Evolved;
    match e
    case Binary(_, left, right) =>
      var (a, env1, out1) := EvalExpr(left, env, out);
      ExprMoves(left, env, out, callee);
      ExprMoves(right, env1, out1, callee);
      ExprEvolves(left, env, out);
      ExprEvolves(right, env1, out1);
      MovesInTurn(env, env1, EvalExpr(right, env1, out1).1, callee, AssignedIn(left), AssignedIn(right));
    case Assign(name, value) =>
      var (a, env1, _) := EvalExpr(value, env, out);
      ExprMoves(value, env, out, callee);
      AssignChangesNearest(env1, name, a.value);
      AssignmentMoves(env1, callee, name, a.value);
      ExprEvolves(value, env, out);
      AssignedEvolves(env1, name, a.value);
      MovesInTurn(env, env1, Assigned(env1, name, a.value).0, callee, AssignedIn(value), {name});
    case Call(_, args) =>
      ArgsMove(args, env, out, callee);
    case _ =>
  }

  lemma {:induction false} ArgsMove(args: seq<Expr>, env: Env, out: Output, callee: string)
    requires EvalArgs(args, env, out).0.Done?
    ensures Holder(EvalArgs(args, env, out).1, callee) != Holder(env, callee) <==> Moving(env, callee, AssignedInArgs(args))
    decreases args, 0
  {
    hide Holder, Reaches, EvalExpr, DueAt, Evolved, AssignedIn;
    if args != [] {
      var (a, env1, out1) := EvalExpr(args[0], env, out);
      ExprMoves(args[0], env, out, callee);
      ArgsMove(args[1..], env1, out1, callee);
      ExprEvolves(args[0], env, out);
      ArgsEvolve(args[1..], env1, out1);
      MovesInTurn(env, env1, EvalArgs(args[1..], env1, out1).1, callee, AssignedIn(args[0]), AssignedInArgs(args[1..]));
    }
  }

  // A call of a constant, with arguments that evaluate to values, calls what the name is bound to
  // if and only if its table is not due or none of the names assigned in them reaches it.
  lemma CallOfConstant(callee: string, args: seq<Expr>, env: Env, out: Output)
    requires Resolve(env, callee).Some? && Resolve(env, callee).value.VBuiltin? && NearestIsConst(env, callee)
    requires EvalArgs(args, env, out).0.Done?
    ensures CallsItsCallee(callee, args, env, out) <==> !Moving(env, callee, AssignedInArgs(args))
  {
    hide CallsItsCallee, Holder, Resolve, Moving, EvalArgs, Evolved, AssignedInArgs;
    CalleeAfterArguments(callee, args, env, out);
    ArgsMove(args, env, out, callee);
    ArgsEvolve(args, env, out);
    EvolvedBinding(env, EvalArgs(args, env, out).1, callee);
  }

  // ----- two programs that notice -----

  // `f(f = println)` with f bound to print prints a line break; `f(f = 5)` has no meaning.
  lemma ReassignedCallee(f: string, env: Env, out: Output)
    requires Resolve(env, f) == Some(VBuiltin("print")) && !NearestIsConst(env, f) && !DueAt(env, f)
    requires Resolve(env, "println") == Some(VBuiltin("println"))
    ensures var r := EvalExpr(Call(f, [Assign(f, Ident("println"))]), env, out);
      r.0 == Done(VNull) && r.2 == out + Shown(VBuiltin("println")) + [Ch('\n')]
    ensures EvalExpr(Call(f, [Assign(f, IntLit(5))]), env, out).0 == Failed(Undefined)
  {
    hide Shown, Resolve, Holder, DueAt;
    ReassigningArgument(f, Ident("println"), VBuiltin("println"), env, out);
    ReassigningArgument(f, IntLit(5), VInt(5), env, out);
    assert ShownList([VBuiltin("println")]) == Shown(VBuiltin("println"));
  }

  lemma ReassigningArgument(f: string, e: Expr, v: Val, env: Env, out: Output)
    requires Resolve(env, f).Some? && Resolve(env, f).value.VBuiltin? && !NearestIsConst(env, f) && !DueAt(env, f)
    requires EvalExpr(e, env, out) == (Done(v), env, out)
    ensures var env1 := Assigned(env, f, v).0;
      && Resolve(env1, f) == Some(v) && Holder(env1, f) == Holder(env, f)
      && EvalArgs([Assign(f, e)], env, out) == (Done([v]), env1, out)
  {
    hide Resolve, Holder, DueAt;
    AssignChangesNearest(env, f, v);
    AssignedEvolves(env, f, v);
    EvolvedBinding(env, Assigned(env, f, v).0, f);
    OneArgument(Assign(f, e), env, out);
  }

  function Declarations(names: seq<string>): seq<Stmt> {
    seq(|names|, i requires 0 <= i < |names| => VarDecl(names[i], false, None))
  }

  ghost predicate Distinct(names: seq<string>) {
    forall i, j :: 0 <= i < j < |names| ==> names[i] != names[j]
  }

  lemma {:induction false} BuiltinsCounted(m: Bindings, n: nat)
    requires n <= |Builtins()| && forall name :: name in Builtins() ==> name !in m
    ensures |WithBuiltins(m, n)| == |m| + n
  {
    hide Builtins, WithBuiltins;
    BuiltinStep(m, n);
    if n > 0 {
      BuiltinsCounted(m, n - 1);
      BuiltinIsNew(m, n - 1);
      OneMore(WithBuiltins(m, n - 1), Builtins()[n - 1], Binding(VBuiltin(Builtins()[n - 1]), true));
    }
  }

  lemma BuiltinStep(m: Bindings, n: nat)
    requires n <= |Builtins()|
    ensures if n == 0 then WithBuiltins(m, n) == m
            else var (before, name) := (WithBuiltins(m, n - 1), Builtins()[n - 1]);
              name !in before ==> WithBuiltins(m, n) == before[name := Binding(VBuiltin(name), true)]
  {
    hide Builtins;
  }

  lemma BuiltinIsNew(m: Bindings, n: nat)
    requires n < |Builtins()| && forall name :: name in Builtins() ==> name !in m
    ensures Builtins()[n] !in WithBuiltins(m, n)
  {
    hide Builtins, WithBuiltins;
    BuiltinsAdded(m, n);
    BuiltinsDistinct();
    assert Builtins()[n] in Builtins();
  }

  lemma BuiltinsDistinct()
    ensures Distinct(Builtins())
  {
    var names := Builtins();
    assert |names[0]| == 7 && |names[1]| == 5 && |names[2]| == 6 && |names[3]| == 12;
    assert |names[4]| == 4 && |names[5]| == 4 && names[4][0] != names[5][0];
  }

  lemma OneMore(m: Bindings, key: string, b: Binding)
    requires key !in m
    ensures |m[key := b]| == |m| + 1
  {
    assert m[key := b].Keys == m.Keys + {key};
  }

  lemma GlobalCounted()
    ensures |GlobalEnv().top.vars| == 9 && GlobalEnv().top.capacity == 20
    ensures forall name :: name in GlobalEnv().top.vars <==> name in LITERALS || name in Builtins()
  {
    hide WithBuiltins;
    LiteralsAreNotBuiltins();
    BuiltinsCounted(LITERALS, 6);
    BuiltinsAdded(LITERALS, 6);
    assert Builtins()[..6] == Builtins();
    assert |LITERALS| == 3;
  }

  // Declaring new names in a scope with room for them, and then running s.
  lemma {:induction false} DeclaredThen(names: seq<string>, s: Stmt, last: Val, env: Env, out: Output, fuel: nat)
    returns (env1: Env)
    requires env.Chain? && !env.top.allowRedecl && !env.top.reuse && env.top.capacity == 20
    requires Distinct(names) && (forall n :: n in names ==> n !in env.top.vars) && |env.top.vars| + |names| <= 16
    ensures env1.Chain? && env1.top == env.top.(vars := env1.top.vars) && env1.up == env.up
    ensures |env1.top.vars| == |env.top.vars| + |names|
    ensures forall k :: k in env.top.vars ==> k in env1.top.vars && env1.top.vars[k] == env.top.vars[k]
    ensures forall n :: n in names ==> n in env1.top.vars && env1.top.vars[n] == Binding(VNull, false)
    ensures var (r, env2, out2) := Exec(s, env1, out, fuel);
      ExecSeq(Declarations(names) + [s], last, env, out, fuel) == (r, env2, out2)
    decreases |names|
  {
    hide Exec;
    if names == [] {
      assert Declarations(names) + [s] == [s] && [s][1..] == [];
      env1 := env;
    } else {
      var program := Declarations(names) + [s];
      assert program[0] == VarDecl(names[0], false, None) && program[1..] == Declarations(names[1..]) + [s];
      var next := FirstDeclared(names[0], env, out, fuel);
      env1 := DeclaredThen(names[1..], s, VNull, next, out, fuel);
    }
  }

  lemma FirstDeclared(name: string, env: Env, out: Output, fuel: nat) returns (next: Env)
    requires env.Chain? && !env.top.allowRedecl && !env.top.reuse && env.top.capacity == 20
    requires name !in env.top.vars && |env.top.vars| < 16
    ensures next == Chain(env.top.(vars := env.top.vars[name := Binding(VNull, false)]), env.up)
    ensures Exec(VarDecl(name, false, None), env, out, fuel) == (Done(VNull), next, out)
  {
    next := Chain(env.top.(vars := env.top.vars[name := Binding(VNull, false)]), env.up);
  }

  // `var a; ... println(a = 1);` with up to seven new global variables: the seventh makes the
  // global table due, and the assignment among the arguments moves it away from under the call.
  lemma MovedTable(names: seq<string>, fuel: nat)
    requires 1 <= |names| <= 7 && Distinct(names)
    requires forall n :: n in names ==> n !in LITERALS && n !in Builtins()
    ensures var program := Declarations(names) + [ExprStmt(Call("println", [Assign(names[0], IntLit(1))]))];
      var (r, _, out) := RunProgram(program, fuel);
      && (r == Failed(Undefined) <==> |names| == 7)
      && (|names| < 7 ==> r == Done(VNull) && out == Shown(VInt(1)) + [Ch('\n')])
  {
    hide Shown, WithBuiltins;
    var call := Call("println", [Assign(names[0], IntLit(1))]);
    var global := GlobalEnv();
    GlobalCounted();
    ScopesBindBuiltins(Nil);
    assert Builtins()[0] == "println";
    var env := DeclaredThen(names, ExprStmt(call), VNull, global, [], fuel);
    var env1 := Assigned(env, names[0], VInt(1)).0;
    assert names[0] in names;
    OneArgument(call.args[0], env, []);
    assert ShownList([VInt(1)]) == Shown(VInt(1));
    assert Holder(env, "println") == 20 && Holder(env1, "println") == Room(|env.top.vars|, 20);
    assert Resolve(env1, "println") == Some(VBuiltin("println"));
    assert [] + Shown(VInt(1)) + [Ch('\n')] == Shown(VInt(1)) + [Ch('\n')];
  }
}
