/** Properties of the meaning of programs that hold over whole runs. */
module EvalProperties {
  import opened Ast
  import opened ValueMap
  import opened Env
  import opened Eval

  // ----- what a scope operation changes -----

  // The scopes outside the nearest one that binds name.
  function Outside(env: Env, name: string): Env {
    match env
    case Nil => Nil
    case Chain(top, up) => if name in top.vars then up else Outside(up, name)
  }

  function NearestIsConst(env: Env, name: string): bool {
    match env
    case Nil => false
    case Chain(top, up) => if name in top.vars then top.vars[name].isConst else NearestIsConst(up, name)
  }

  // The same scopes, whatever the sizes of their tables.
  ghost predicate Alike(a: Env, b: Env) {
    match a
    case Nil => b.Nil?
    case Chain(top, up) => b.Chain? && b.top == top.(capacity := b.top.capacity) && Alike(up, b.up)
  }

  // An assignment changes the nearest binding of its name and nothing else, or nothing at all.
  lemma {:induction false} AssignChangesNearest(env: Env, name: string, v: Val)
    ensures var (env', status) := Assigned(env, name, v);
      && status != SetExists
      && (status == SetNotFound <==> Resolve(env, name).None?)
      && (status == SetIsConst <==> Resolve(env, name).Some? && NearestIsConst(env, name))
      && (status != SetOk ==> Alike(env, env'))
      && (status == SetOk ==> Outside(env', name) == Outside(env, name))
      && (status == SetOk ==> Resolve(env', name) == Some(v))
      && (forall other :: other != name ==> Resolve(env', other) == Resolve(env, other))
  {
    if env.Chain? && name !in env.top.vars {
      AssignChangesNearest(env.up, name, v);
    } else if env.Chain? {
      AlikeReflexive(env.up);
    }
  }

  lemma {:induction false} AlikeReflexive(a: Env)
    ensures Alike(a, a)
  {
    if a.Chain? {
      AlikeReflexive(a.up);
    }
  }

  // ----- constants -----

  // From one frame to a later state of it: no binding disappears, no const flag changes, and
  // outside loop scopes no constant changes its value.
  ghost predicate FrameKept(a: Frame, b: Frame) {
    && b == a.(vars := b.vars, capacity := b.capacity)
    && (forall k :: k in a.vars ==> k in b.vars && b.vars[k].isConst == a.vars[k].isConst)
    && (!a.reuse && !a.allowRedecl ==>
          forall k :: k in a.vars && a.vars[k].isConst ==> b.vars[k] == a.vars[k])
  }

  ghost predicate Kept(a: Env, b: Env) {
    match a
    case Nil => b.Nil?
    case Chain(top, up) => b.Chain? && FrameKept(top, b.top) && Kept(up, b.up)
  }

  lemma {:induction false} KeptReflexive(a: Env)
    ensures Kept(a, a)
  {
    if a.Chain? {
      KeptReflexive(a.up);
    }
  }

  lemma {:induction false} KeptTransitive(a: Env, b: Env, c: Env)
    requires Kept(a, b) && Kept(b, c)
    ensures Kept(a, c)
  {
    if a.Chain? {
      KeptTransitive(a.up, b.up, c.up);
    }
  }

  lemma {:induction false} AssignedKeeps(env: Env, name: string, v: Val)
    ensures Kept(env, Assigned(env, name, v).0)
  {
    if env.Chain? {
      AssignedKeeps(env.up, name, v);
      KeptReflexive(env.up);
    }
  }

  lemma WriteKeeps(f: Frame, name: string, v: Val, isConst: bool)
    ensures FrameKept(f, Wrote(f, name, v, isConst, NoOverwrite, true).0)
    ensures f.reuse || f.allowRedecl ==> FrameKept(f, Wrote(f, name, v, isConst, Default, false).0)
  {
  }

  lemma DeclarationKeeps(name: string, isConst: bool, v: Val, env: Env, out: Output)
    ensures Kept(env, Declaration(name, isConst, v, env, out).1)
  {
    hide FrameKept, Wrote;
    if env.Chain? {
      KeptReflexive(env.up);
      WriteKeeps(env.top, name, v, isConst);
    }
  }

  lemma {:induction false} ExprKeeps(e: Expr, env: Env, out: Output)
    ensures Kept(env, EvalExpr(e, env, out).1)
    decreases e, 1
  {
    KeptReflexive(env);
    match e
    case Binary(op, left, right) =>
      var (a, env1, out1) := EvalExpr(left, env, out);
      ExprKeeps(left, env, out);
      ExprKeeps(right, env1, out1);
      KeptTransitive(env, env1, EvalExpr(right, env1, out1).1);
    case Assign(name, value) =>
      var (a, env1, _) := EvalExpr(value, env, out);
      ExprKeeps(value, env, out);
      if a.Done? {
        AssignedKeeps(env1, name, a.value);
        KeptTransitive(env, env1, Assigned(env1, name, a.value).0);
      }
    case Call(_, args) =>
      ArgsKeep(args, env, out);
    case _ =>
  }

  lemma {:induction false} ArgsKeep(args: seq<Expr>, env: Env, out: Output)
    ensures Kept(env, EvalArgs(args, env, out).1)
    decreases args, 0
  {
    if args == [] {
      KeptReflexive(env);
    } else {
      var (a, env1, out1) := EvalExpr(args[0], env, out);
      ExprKeeps(args[0], env, out);
      ArgsKeep(args[1..], env1, out1);
      KeptTransitive(env, env1, EvalArgs(args[1..], env1, out1).1);
    }
  }

  // No statement, run to any point by any program, removes a binding from an enclosing scope,
  // changes a const flag, or changes the value of a constant outside loop scopes.
  lemma {:induction false} ExecKeeps(s: Stmt, env: Env, out: Output, fuel: nat)
    ensures Kept(env, Exec(s, env, out, fuel).1)
    decreases s, 0, 0
  {
    KeptReflexive(env);
    match s
    case ExprStmt(e) =>
      ExprKeeps(e, env, out);
    case VarDecl(name, isConst, init) =>
      var (a, env1, out1) := if init.None? then (Done(VNull), env, out) else EvalExpr(init.value, env, out);
      if init.Some? {
        ExprKeeps(init.value, env, out);
      }
      if a.Done? {
        DeclarationKeeps(name, isConst, a.value, env1, out1);
        KeptTransitive(env, env1, Declaration(name, isConst, a.value, env1, out1).1);
      }
    case FnDecl(_, _, _) =>
    case Block(stmts) =>
      SeqKeeps(stmts, VNull, NewScope(env), out, fuel);
    case If(cond, thn, els) =>
      var (c, env1, out1) := EvalExpr(cond, env, out);
      ExprKeeps(cond, env, out);
      if c.Done? && Truthy(c.value) {
        ExecKeeps(thn, env1, out1, fuel);
        KeptTransitive(env, env1, Exec(thn, env1, out1, fuel).1);
      } else if c.Done? && els.Some? {
        ExecKeeps(els.value, env1, out1, fuel);
        KeptTransitive(env, env1, Exec(els.value, env1, out1, fuel).1);
      }
    case Loop(count, iterVar, body) =>
      var (n, env1, out1) := if count.None? then (Done(VBool(true)), env, out) else EvalExpr(count.value, env, out);
      if count.Some? {
        ExprKeeps(count.value, env, out);
      }
      if n.Done? && (n.value.VBool? || n.value.VInt?) {
        var inner := LoopScope(env1, iterVar);
        IterateKeeps(n.value, iterVar, body, 0, inner, out1, fuel);
        KeptTransitive(env, env1, Popped(Iterate(n.value, iterVar, body, 0, inner, out1, fuel).1));
      }
  }

  lemma {:induction false} SeqKeeps(ss: seq<Stmt>, last: Val, env: Env, out: Output, fuel: nat)
    ensures Kept(env, ExecSeq(ss, last, env, out, fuel).1)
    decreases ss, 0, 0
  {
    if ss == [] {
      KeptReflexive(env);
    } else {
      var (r, env1, out1) := Exec(ss[0], env, out, fuel);
      ExecKeeps(ss[0], env, out, fuel);
      if r.Done? {
        SeqKeeps(ss[1..], r.value, env1, out1, fuel);
        KeptTransitive(env, env1, ExecSeq(ss[1..], r.value, env1, out1, fuel).1);
      }
    }
  }

  lemma {:induction false} BodyKeeps(body: Stmt, env: Env, out: Output, fuel: nat)
    ensures Kept(env, ExecBody(body, env, out, fuel).1)
    decreases body, 1, 0
  {
    if body.Block? {
      SeqKeeps(body.stmts, VNull, env, out, fuel);
    } else {
      ExecKeeps(body, env, out, fuel);
    }
  }

  // The iterations of a loop keep the scopes around the scope of the loop.
  lemma {:induction false} IterateKeeps(limit: Val, iterVar: Option<string>, body: Stmt, counter: nat, env: Env,
                                        out: Output, fuel: nat)
    requires (limit.VBool? || limit.VInt?) && env.Chain?
    ensures var env' := Iterate(limit, iterVar, body, counter, env, out, fuel).1;
      env'.Chain? && Kept(env.up, env'.up)
    decreases body, 2, if limit.VInt? then limit.i - counter else fuel
  {
    KeptReflexive(env.up);
    if !Finished(limit, counter) && !(limit.VBool? && fuel == 0) {
      var start := Entering(env, counter);
      BodyKeeps(body, start, out, fuel);
      var (r, env1, out1) := ExecBody(body, start, out, fuel);
      if r.Done? {
        var next := Leaving(env1, iterVar, counter + 1);
        var fuel' := if limit.VBool? then fuel - 1 else fuel;
        IterateKeeps(limit, iterVar, body, counter + 1, next, out1, fuel');
        KeptTransitive(env.up, next.up, Iterate(limit, iterVar, body, counter + 1, next, out1, fuel').1.up);
      }
    }
  }

  // ----- built-in names -----

  lemma {:induction false} BuiltinsAdded(m: Bindings, n: nat)
    requires n <= |Builtins()|
    ensures var r := WithBuiltins(m, n);
      && (forall k :: k in m ==> k in r && r[k] == m[k])
      && (forall k :: k in r <==> k in m || k in Builtins()[..n])
      && (forall k :: k in r && k !in m ==> r[k] == Binding(VBuiltin(k), true))
  {
    if n == 0 {
    } else {
      BuiltinsAdded(m, n - 1);
      assert Builtins()[..n] == Builtins()[..n - 1] + [Builtins()[n - 1]];
    }
  }

  // Every scope outside loops binds every built-in name, as a constant, to the built-in.
  ghost predicate BindsBuiltins(f: Frame) {
    forall name :: name in Builtins() ==> name in f.vars && f.vars[name] == Binding(VBuiltin(name), true)
  }

  ghost predicate BuiltinsBound(env: Env) {
    match env
    case Nil => true
    case Chain(top, up) => (!top.reuse ==> !top.allowRedecl && BindsBuiltins(top)) && BuiltinsBound(up)
  }

  lemma {:induction false} KeptBuiltins(a: Env, b: Env)
    requires BuiltinsBound(a) && Kept(a, b)
    ensures BuiltinsBound(b)
  {
    if a.Chain? {
      KeptBuiltins(a.up, b.up);
    }
  }

  lemma LiteralsAreNotBuiltins()
    ensures forall name :: name in Builtins() ==> name !in LITERALS
  {
    assert LITERALS.Keys == {"true", "false", "null"};
    forall name | name in Builtins()
      ensures name[0] in {'p', 'v', 'a', 'r', 'e'}
    {
    }
  }

  lemma AllBuiltinsAdded(m: Bindings)
    requires forall name :: name in Builtins() ==> name !in m
    ensures BindsBuiltins(EmptyFrame().(vars := WithBuiltins(m, |Builtins()|)))
    ensures forall k :: k in WithBuiltins(m, |Builtins()|) ==> k in m || k in Builtins()
  {
    hide Builtins;
    BuiltinsAdded(m, |Builtins()|);
    assert Builtins()[..|Builtins()|] == Builtins();
  }

  lemma ScopesBindBuiltins(env: Env)
    requires BuiltinsBound(env)
    ensures BuiltinsBound(NewScope(env)) && BuiltinsBound(GlobalEnv())
  {
    hide WithBuiltins;
    hide Builtins;
    AllBuiltinsAdded(map[]);
    LiteralsAreNotBuiltins();
    AllBuiltinsAdded(LITERALS);
  }

  // Whatever a program has done, a built-in name used outside loop scopes is the built-in.
  lemma BuiltinsSurvive(ss: seq<Stmt>, last: Val, env: Env, out: Output, fuel: nat, name: string)
    requires env.Chain? && BuiltinsBound(env) && !env.top.reuse
    requires name in Builtins()
    ensures Resolve(ExecSeq(ss, last, env, out, fuel).1, name) == Some(VBuiltin(name))
  {
    SeqKeeps(ss, last, env, out, fuel);
    KeptBuiltins(env, ExecSeq(ss, last, env, out, fuel).1);
  }

  // Declaring a name the scope already binds succeeds exactly in the second and later iterations
  // of the enclosing loop. It then replaces the value even of a constant or a built-in.
  lemma RedeclarationSucceedsOnlyInLoops(name: string, isConst: bool, v: Val, env: Env, out: Output)
    requires env.Chain? && !env.top.allowRedecl && name in env.top.vars
    ensures var (r, env', _) := Declaration(name, isConst, v, env, out);
      && r == (if Redeclaring(env) then Done(VNull) else Failed(Redeclared(name)))
      && Resolve(env', name) == Some(if Redeclaring(env) then v else env.top.vars[name].value)
  {
  }

  // ----- counted loops -----

  // The states in which the iterations from counter on start their bodies.
  ghost function Starts(limit: Val, iterVar: Option<string>, body: Stmt, counter: nat, env: Env, out: Output, fuel: nat)
    : seq<Env>
    requires limit.VInt?
    decreases limit.i - counter
  {
    if Finished(limit, counter) then []
    else
      var start := Entering(env, counter);
      var (r, env1, out1) := ExecBody(body, start, out, fuel);
      [start] + if r.Done? then Starts(limit, iterVar, body, counter + 1, Leaving(env1, iterVar, counter + 1), out1, fuel)
                else []
  }

  // The scope of the loop binds the variable as a constant.
  predicate BindsConstant(env: Env, name: string) {
    env.Chain? && name in env.top.vars && env.top.vars[name].isConst
  }

  // What holds between iterations: the loop scope carries the counter.
  ghost predicate AtIteration(env: Env, iterVar: Option<string>, counter: nat) {
    && env.Chain? && env.top.reuse
    && env.top.uid == (if counter == 0 then 1 else counter)
    && (counter > 0 && iterVar.Some? ==> Resolve(env, iterVar.value) == Some(VInt(counter)))
    && (iterVar.Some? ==> BindsConstant(env, iterVar.value))
  }

  lemma BodyThenLeaving(body: Stmt, env: Env, iterVar: Option<string>, counter: nat, out: Output, fuel: nat)
    requires AtIteration(env, iterVar, counter)
    ensures AtIteration(Leaving(ExecBody(body, Entering(env, counter), out, fuel).1, iterVar, counter + 1), iterVar, counter + 1)
  {
    hide ExecBody;
    BodyKeeps(body, Entering(env, counter), out, fuel);
  }

  lemma {:induction false} IterationsFrom(n: nat, iterVar: Option<string>, body: Stmt, counter: nat, env: Env,
                                          out: Output, fuel: nat)
    requires counter <= n && AtIteration(env, iterVar, counter)
    ensures var starts := Starts(VInt(n), iterVar, body, counter, env, out, fuel);
      && |starts| <= n - counter
      && (Iterate(VInt(n), iterVar, body, counter, env, out, fuel).0.Done? ==> |starts| == n - counter)
      && (counter < n ==> |starts| >= 1 && starts[0] == Entering(env, counter))
      && (forall j :: 0 <= j < |starts| ==>
            && (Redeclaring(starts[j]) <==> counter + j > 0)
            && (iterVar.Some? ==> BindsConstant(starts[j], iterVar.value))
            && (iterVar.Some? && counter + j > 0 ==> Resolve(starts[j], iterVar.value) == Some(VInt(counter + j))))
    decreases n - counter
  {
    hide ExecBody;
    hide Leaving;
    if counter < n {
      var start := Entering(env, counter);
      var (r, env1, out1) := ExecBody(body, start, out, fuel);
      if r.Done? {
        BodyThenLeaving(body, env, iterVar, counter, out, fuel);
        var next := Leaving(env1, iterVar, counter + 1);
        IterationsFrom(n, iterVar, body, counter + 1, next, out1, fuel);
        var rest := Starts(VInt(n), iterVar, body, counter + 1, next, out1, fuel);
        var starts := Starts(VInt(n), iterVar, body, counter, env, out, fuel);
        assert starts == [start] + rest;
        forall j | 0 < j < |starts|
          ensures starts[j] == rest[j - 1]
        {
        }
      }
    }
  }

  // `loop (n as i) body`: a run without error starts the body exactly n times. Iteration k sees
  // i equal to k in every iteration if and only if i is not the name of a built-in (or n is 0):
  // declaring i under such a name fails silently before the first iteration. Declarations in the
  // scope of the loop are first-time declarations in iteration 0 and overwrite in later ones. The
  // name is a constant there in all of them.
  lemma CountedLoop(count: Expr, n: nat, i: string, body: Stmt, env: Env, out: Output, fuel: nat)
    requires EvalExpr(count, env, out).0 == Done(VInt(n))
    ensures var (_, env1, out1) := EvalExpr(count, env, out);
      var starts := Starts(VInt(n), Some(i), body, 0, LoopScope(env1, Some(i)), out1, fuel);
      && |starts| <= n
      && (Exec(Loop(Some(count), Some(i), body), env, out, fuel).0.Done? ==> |starts| == n)
      && ((forall k :: 0 <= k < |starts| ==> Resolve(starts[k], i) == Some(VInt(k))) <==> n == 0 || i !in Builtins())
      && (forall k :: 0 <= k < |starts| ==> (Redeclaring(starts[k]) <==> k > 0) && BindsConstant(starts[k], i))
  {
    hide WithBuiltins, Builtins, EvalExpr;
    AllBuiltinsAdded(map[]);
    var (_, env1, out1) := EvalExpr(count, env, out);
    var inner := LoopScope(env1, Some(i));
    IterationsFrom(n, Some(i), body, 0, inner, out1, fuel);
    var starts := Starts(VInt(n), Some(i), body, 0, inner, out1, fuel);
    if n > 0 {
      assert Resolve(starts[0], i) == Some(if i in Builtins() then VBuiltin(i) else VInt(0));
    }
  }

  // ----- fuel -----

  lemma {:induction false} ExprsNeedNoFuel(e: Expr, env: Env, out: Output)
    ensures !EvalExpr(e, env, out).0.OutOfFuel?
    decreases e, 1
  {
    match e
    case Binary(_, left, right) =>
      ExprsNeedNoFuel(left, env, out);
      ExprsNeedNoFuel(right, EvalExpr(left, env, out).1, EvalExpr(left, env, out).2);
    case Assign(_, value) =>
      ExprsNeedNoFuel(value, env, out);
    case Call(_, args) =>
      ArgsNeedNoFuel(args, env, out);
    case _ =>
  }

  lemma {:induction false} ArgsNeedNoFuel(args: seq<Expr>, env: Env, out: Output)
    ensures !EvalArgs(args, env, out).0.OutOfFuel?
    decreases args, 0
  {
    if args != [] {
      ExprsNeedNoFuel(args[0], env, out);
      ArgsNeedNoFuel(args[1..], EvalExpr(args[0], env, out).1, EvalExpr(args[0], env, out).2);
    }
  }

  // More fuel never changes a run that ended: fuel only decides how far an endless loop is run.
  lemma {:induction false} FuelSuffices(s: Stmt, env: Env, out: Output, fuel: nat, more: nat)
    requires fuel <= more && !Exec(s, env, out, fuel).0.OutOfFuel?
    ensures Exec(s, env, out, more) == Exec(s, env, out, fuel)
    decreases s, 0, 0
  {
    match s
    case Block(stmts) =>
      FuelSufficesSeq(stmts, VNull, NewScope(env), out, fuel, more);
    case If(cond, thn, els) =>
      var (c, env1, out1) := EvalExpr(cond, env, out);
      if c.Done? && Truthy(c.value) {
        FuelSuffices(thn, env1, out1, fuel, more);
      } else if c.Done? && els.Some? {
        FuelSuffices(els.value, env1, out1, fuel, more);
      }
    case Loop(count, iterVar, body) =>
      var (n, env1, out1) := if count.None? then (Done(VBool(true)), env, out) else EvalExpr(count.value, env, out);
      if n.Done? && (n.value.VBool? || n.value.VInt?) && !(n.value.VInt? && n.value.i < 0) {
        FuelSufficesIterate(n.value, iterVar, body, 0, LoopScope(env1, iterVar), out1, fuel, more);
      }
    case _ =>
  }

  lemma {:induction false} FuelSufficesSeq(ss: seq<Stmt>, last: Val, env: Env, out: Output, fuel: nat, more: nat)
    requires fuel <= more && !ExecSeq(ss, last, env, out, fuel).0.OutOfFuel?
    ensures ExecSeq(ss, last, env, out, more) == ExecSeq(ss, last, env, out, fuel)
    decreases ss, 0, 0
  {
    if ss != [] {
      var (r, env1, out1) := Exec(ss[0], env, out, fuel);
      FuelSuffices(ss[0], env, out, fuel, more);
      if r.Done? {
        FuelSufficesSeq(ss[1..], r.value, env1, out1, fuel, more);
      }
    }
  }

  lemma {:induction false} FuelSufficesIterate(limit: Val, iterVar: Option<string>, body: Stmt, counter: nat, env: Env,
                                               out: Output, fuel: nat, more: nat)
    requires (limit.VBool? || limit.VInt?) && fuel <= more
    requires !Iterate(limit, iterVar, body, counter, env, out, fuel).0.OutOfFuel?
    ensures Iterate(limit, iterVar, body, counter, env, out, more) == Iterate(limit, iterVar, body, counter, env, out, fuel)
    decreases body, 2, if limit.VInt? then limit.i - counter else fuel
  {
    hide Entering, Leaving, Exec, ExecSeq;
    if !Finished(limit, counter) && !(limit.VBool? && fuel == 0) {
      var start := Entering(env, counter);
      var (r, env1, out1) := ExecBody(body, start, out, fuel);
      if body.Block? {
        FuelSufficesSeq(body.stmts, VNull, start, out, fuel, more);
      } else {
        FuelSuffices(body, start, out, fuel, more);
      }
      if r.Done? {
        var d := if limit.VBool? then 1 else 0;
        FuelSufficesIterate(limit, iterVar, body, counter + 1, Leaving(env1, iterVar, counter + 1), out1, fuel - d, more - d);
      }
    }
  }

  // There is no way to leave `loop (true)` except an error or exit().
  lemma {:induction false} EndlessLoop(iterVar: Option<string>, body: Stmt, counter: nat, env: Env, out: Output, fuel: nat)
    ensures !Iterate(VBool(true), iterVar, body, counter, env, out, fuel).0.Done?
    decreases fuel
  {
    if fuel > 0 {
      var (r, env1, out1) := ExecBody(body, Entering(env, counter), out, fuel);
      if r.Done? {
        EndlessLoop(iterVar, body, counter + 1, Leaving(env1, iterVar, counter + 1), out1, fuel - 1);
      }
    }
  }
}
