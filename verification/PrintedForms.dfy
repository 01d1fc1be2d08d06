/** Parsing undoes printing: the printed form of a tree is one of the forms that mean it. */
module PrintedForms {
  import opened Ast
  import opened Tokens
  import opened Grammar
  import opened Printer
  import opened Forms
  import RoundTrip
  import Decimal

  // ----- expressions -----

  // The form that is printed where an operand of the given level is expected.
  function FormOf(e: Expr, level: nat): Form
    decreases e, 1
  {
    if Level(e) < level then Grouped(BareForm(e)) else BareForm(e)
  }

  function BareForm(e: Expr): Form
    decreases e, 0
  {
    match e
    case IntLit(n) => Word(Token(TInt, Decimal.Signed(n)))
    case StrLit(s) => Word(Token(TString, s))
    case Ident(name) => Word(Name(name))
    case Binary(op, left, right) => Infix(op, FormOf(left, OperatorLevel(op)), FormOf(right, OperatorLevel(op) + 1))
    case Assign(target, value) => Store(target, FormOf(value, 0))
    case Call(callee, args) => Apply(callee, ArgsOf(args))
    case ArrayLit(elems) => Items(ElemsOf(elems), false)
  }

  function ArgsOf(args: seq<Expr>): (r: seq<Arg>)
    ensures |r| == |args|
    decreases args, 2
  {
    if args == [] then [] else [Arg(FormOf(args[0], 0), |args| > 1)] + ArgsOf(args[1..])
  }

  function ElemsOf(elems: seq<Expr>): (r: seq<Form>)
    ensures |r| == |elems|
    decreases elems, 2
  {
    if elems == [] then [] else [FormOf(elems[0], 0)] + ElemsOf(elems[1..])
  }

  lemma {:induction false} FormMeans(e: Expr, level: nat)
    requires WfExpr(e)
    ensures var f := FormOf(e, level);
      Proper(f) && Meaning(f) == e && (FormLevel(f) >= level || level > 4) && (level > 4 ==> FormLevel(f) == 4)
    decreases e, 1
  {
    BareMeans(e);
  }

  lemma {:induction false} BareMeans(e: Expr)
    requires WfExpr(e)
    ensures var f := BareForm(e);
      Proper(f) && Meaning(f) == e && FormLevel(f) == Level(e)
    decreases e, 0
  {
    hide FormOf, ArgsOf, ElemsOf, ArgsFit, ElemsFit;
    match e
    case IntLit(n) =>
      Decimal.ValueOfUnsigned(n);
    case Binary(op, left, right) =>
      FormMeans(left, OperatorLevel(op));
      FormMeans(right, OperatorLevel(op) + 1);
    case Assign(_, value) =>
      FormMeans(value, 0);
    case Call(callee, args) =>
      ArgsMean(args);
      ApplyMeans(callee, ArgsOf(args), args);
    case ArrayLit(elems) =>
      ElemsMean(elems);
      ItemsMean(ElemsOf(elems), elems);
    case _ =>
  }

  predicate ArgsFit(fs: seq<Arg>, args: seq<Expr>) {
    && |fs| == |args| && (forall i :: 0 <= i < |fs| ==> Proper(fs[i].form) && Meaning(fs[i].form) == args[i])
    && forall i :: 0 <= i < |fs| - 1 ==> fs[i].comma
  }

  predicate ElemsFit(fs: seq<Form>, elems: seq<Expr>) {
    |fs| == |elems| && forall i :: 0 <= i < |fs| ==> Proper(fs[i]) && Meaning(fs[i]) == elems[i]
  }

  lemma ApplyMeans(callee: string, fs: seq<Arg>, args: seq<Expr>)
    requires ArgsFit(fs, args)
    ensures Proper(Apply(callee, fs)) && Meaning(Apply(callee, fs)) == Call(callee, args)
  {
    assert Meaning(Apply(callee, fs)).args == args;
  }

  lemma ItemsMean(fs: seq<Form>, elems: seq<Expr>)
    requires ElemsFit(fs, elems)
    ensures Proper(Items(fs, false)) && Meaning(Items(fs, false)) == ArrayLit(elems)
  {
    assert Meaning(Items(fs, false)).elems == elems;
  }

  lemma {:induction false} ArgsMean(args: seq<Expr>)
    requires forall a :: a in args ==> WfExpr(a)
    ensures ArgsFit(ArgsOf(args), args)
    decreases args, 2
  {
    hide FormOf, Proper, Meaning, WfExpr;
    if args != [] {
      var rest := ArgsOf(args[1..]);
      FormMeans(args[0], 0);
      ArgsMean(args[1..]);
      forall i | 0 < i < |args|
        ensures ArgsOf(args)[i] == rest[i - 1] && args[1..][i - 1] == args[i]
      {
      }
    }
  }

  lemma {:induction false} ElemsMean(elems: seq<Expr>)
    requires forall a :: a in elems ==> WfExpr(a)
    ensures ElemsFit(ElemsOf(elems), elems)
    decreases elems, 2
  {
    hide FormOf, Proper, Meaning, WfExpr;
    if elems != [] {
      var rest := ElemsOf(elems[1..]);
      FormMeans(elems[0], 0);
      ElemsMean(elems[1..]);
      forall i | 0 < i < |elems|
        ensures ElemsOf(elems)[i] == rest[i - 1] && elems[1..][i - 1] == elems[i]
      {
      }
    }
  }

  lemma {:induction false} FormPrints(e: Expr, level: nat, k: seq<Token>)
    ensures FormTokens(FormOf(e, level), k) == ExprTokens(e, level, k)
    decreases e, 1
  {
    hide BareForm, BareTokens;
    if Level(e) < level {
      BarePrints(e, [Symbol(TParenClose)] + k);
    } else {
      BarePrints(e, k);
    }
  }

  lemma {:induction false} BarePrints(e: Expr, k: seq<Token>)
    ensures FormTokens(BareForm(e), k) == BareTokens(e, k)
    decreases e, 0
  {
    hide FormOf, ArgsOf, ElemsOf, Symbol, ExprTokens, ListTokens, ArgsTokens, ElemsTokens;
    match e
    case Binary(op, left, right) =>
      FormPrints(right, OperatorLevel(op) + 1, k);
      FormPrints(left, OperatorLevel(op), [OperatorToken(op)] + ExprTokens(right, OperatorLevel(op) + 1, k));
    case Assign(target, value) =>
      FormPrints(value, 0, k);
      TwoInFront(Name(target), Symbol(TAssign), ExprTokens(value, 0, k));
    case Call(callee, args) =>
      var k1 := [Symbol(TParenClose)] + k;
      ArgsPrint(args, k1);
      TwoInFront(Name(callee), Symbol(TParenOpen), ListTokens(args, k1));
    case ArrayLit(elems) =>
      var k1 := [Symbol(TSquareClose)] + k;
      ElemsPrint(elems, k1);
      TwoInFront(Symbol(TArray), Symbol(TSquareOpen), ListTokens(elems, k1));
    case _ =>
  }

  lemma {:induction false} FormStarts(e: Expr, level: nat)
    ensures FirstOf(FormOf(e, level)) == FirstOfExpr(e, level)
    decreases e
  {
    if e.Binary? {
      FormStarts(e.left, OperatorLevel(e.op));
    }
  }

  lemma TwoInFront(a: Token, b: Token, k: seq<Token>)
    ensures [a, b] + k == [a] + ([b] + k)
  {
  }

  lemma {:induction false} ArgsPrint(args: seq<Expr>, k: seq<Token>)
    ensures ArgsTokens(ArgsOf(args), k) == ListTokens(args, k)
    decreases args, 2
  {
    hide FormOf, FormTokens, ExprTokens, Symbol;
    if args != [] {
      ArgsPrint(args[1..], k);
      assert ArgsOf(args)[1..] == ArgsOf(args[1..]);
      FormPrints(args[0], 0, Comma(|args| > 1, ListTokens(args[1..], k)));
    }
  }

  lemma {:induction false} ElemsPrint(elems: seq<Expr>, k: seq<Token>)
    ensures ElemsTokens(ElemsOf(elems), false, k) == ListTokens(elems, k)
    decreases elems, 2
  {
    hide FormOf, FormTokens, ExprTokens, Symbol;
    if elems != [] {
      ElemsPrint(elems[1..], k);
      assert ElemsOf(elems)[1..] == ElemsOf(elems[1..]);
      FormPrints(elems[0], 0, if |elems| == 1 then k else [Symbol(TComma)] + ListTokens(elems[1..], k));
    }
  }

  // k cannot extend an expression.
  predicate Ends(k: seq<Token>) {
    k != [] && k[0].typ != TParenOpen && k[0].typ != TAssign && forall l :: 1 <= l <= 3 ==> !IsOperatorAt(l, k[0])
  }

  // Parsing the printed tokens of an expression, followed by any token that cannot extend it,
  // gives the expression back and stops right behind it.
  lemma PrintedExprReadBack(e: Expr, k: seq<Token>)
    requires WfExpr(e) && Ends(k)
    ensures ParseExpr(ExprTokens(e, 0, k)) == Ok(e, k)
  {
    hide ParseExpr, FormOf, FormTokens, ExprTokens, Proper, Meaning, IsOperatorAt;
    FormMeans(e, 0);
    FormPrints(e, 0, k);
    RoundTrip.ExprReadBack(FormOf(e, 0), k);
  }

  // ----- statements -----

  function StmtFormOf(s: Stmt): StmtForm
    decreases s, 0
  {
    match s
    case ExprStmt(e) => ExprForm(FormOf(e, 0), 0)
    case VarDecl(name, isConst, init) =>
      DeclForm(name, isConst, if init.None? then None else Some(FormOf(init.value, 0)), 0)
    case FnDecl(fname, params, body) => FnForm(fname, params, false, StmtFormsOf(body), 0)
    case Block(stmts) => BlockForm(StmtFormsOf(stmts), 0)
    case If(cond, thn, els) =>
      IfForm(FormOf(cond, 0), StmtFormOf(thn), if els.None? then None else Some(StmtFormOf(els.value)))
    case Loop(count, iterVar, body) =>
      LoopForm(if count.None? then None else Some(Count(FormOf(count.value, 0), None)), iterVar,
               if Shielded(count, iterVar, body) then ExprForm(FormOf(body.e, 5), 0) else StmtFormOf(body))
  }

  function StmtFormsOf(ss: seq<Stmt>): (r: seq<StmtForm>)
    ensures |r| == |ss|
    decreases ss, 2
  {
    if ss == [] then [] else [StmtFormOf(ss[0])] + StmtFormsOf(ss[1..])
  }

  lemma {:induction false} FormsOfStmts(s: Stmt)
    ensures OpenForm(StmtFormOf(s)) == Open(s) && FirstOfStmtForm(StmtFormOf(s)) == FirstOfStmt(s)
    decreases s
  {
    hide FormOf;
    match s
    case ExprStmt(e) => FormStarts(e, 0);
    case If(_, _, els) =>
      if els.Some? {
        FormsOfStmts(els.value);
      }
    case Loop(_, _, body) =>
      FormsOfStmts(body);
    case _ =>
  }

  lemma {:induction false} StmtFormMeans(s: Stmt)
    requires WfStmt(s)
    ensures ProperStmt(StmtFormOf(s)) && StmtMeaning(StmtFormOf(s)) == s
    decreases s, 0
  {
    hide FormOf, StmtFormsOf, Proper, Meaning, WfExpr;
    match s
    case ExprStmt(e) => FormMeans(e, 0);
    case VarDecl(_, _, init) =>
      if init.Some? {
        FormMeans(init.value, 0);
      }
    case FnDecl(_, _, body) =>
      StmtFormsMean(body);
      assert StmtMeaning(StmtFormOf(s)).body == body;
    case Block(stmts) =>
      StmtFormsMean(stmts);
      assert StmtMeaning(StmtFormOf(s)).stmts == stmts;
    case If(cond, thn, els) =>
      FormMeans(cond, 0);
      StmtFormMeans(thn);
      FormsOfStmts(thn);
      if els.Some? {
        StmtFormMeans(els.value);
      }
    case Loop(count, iterVar, body) =>
      if count.Some? {
        FormMeans(count.value, 0);
      }
      if Shielded(count, iterVar, body) {
        FormMeans(body.e, 5);
        FormStarts(body.e, 5);
      } else {
        StmtFormMeans(body);
        FormsOfStmts(body);
        OnlyExprsStartWithNames(body);
      }
  }

  lemma OnlyExprsStartWithNames(s: Stmt)
    ensures FirstOfStmt(s) == TIdent ==> s.ExprStmt?
  {
  }

  lemma {:induction false} StmtFormsMean(ss: seq<Stmt>)
    requires forall b :: b in ss ==> WfStmt(b)
    ensures var r := StmtFormsOf(ss);
      ProperStmts(r) && StmtMeanings(r) == ss
    decreases ss, 2
  {
    hide StmtFormOf, ProperStmt, StmtMeaning, WfStmt;
    if ss != [] {
      var rest := StmtFormsOf(ss[1..]);
      StmtFormMeans(ss[0]);
      StmtFormsMean(ss[1..]);
      assert StmtFormsOf(ss) == [StmtFormOf(ss[0])] + rest;
      forall i | 0 < i < |ss|
        ensures StmtFormsOf(ss)[i] == rest[i - 1] && ss[1..][i - 1] == ss[i]
      {
      }
      assert StmtMeanings(StmtFormsOf(ss)) == [ss[0]] + StmtMeanings(rest);
    }
  }

  lemma {:induction false} NamesPrint(names: seq<string>, k: seq<Token>)
    ensures ParamTokens(names, false, k) == NameTokens(names, k)
  {
    hide Symbol;
    if |names| > 1 {
      NamesPrint(names[1..], k);
      assert [Name(names[0]), Symbol(TComma)] + NameTokens(names[1..], k)
          == [Name(names[0])] + ([Symbol(TComma)] + NameTokens(names[1..], k));
    }
  }

  lemma {:induction false} StmtFormPrints(s: Stmt, k: seq<Token>)
    ensures StmtFormTokens(StmtFormOf(s), k) == StmtTokens(s, k)
    decreases s, 1
  {
    hide FormOf, FormTokens, ExprTokens, StmtFormsOf, StmtsTokens, Symbol;
    match s
    case ExprStmt(e) =>
      FormPrints(e, 0, [Symbol(TSemicolon)] + k);
    case VarDecl(_, _, _) =>
      DeclPrints(s, k);
    case FnDecl(fname, params, body) =>
      FnPrints(fname, params, body, k);
    case Block(stmts) =>
      StmtFormsPrint(stmts, [Symbol(TBraceClose)] + k);
    case If(_, _, _) =>
      IfPrints(s, k);
    case Loop(_, _, _) =>
      LoopPrints(s, k);
  }

  lemma DeclPrints(s: Stmt, k: seq<Token>)
    requires s.VarDecl?
    ensures StmtFormTokens(StmtFormOf(s), k) == StmtTokens(s, k)
  {
    hide FormOf, FormTokens, ExprTokens, Symbol;
    var k1 := [Symbol(TSemicolon)] + k;
    var k2 := if s.init.None? then k1 else [Symbol(TAssign)] + ExprTokens(s.init.value, 0, k1);
    if s.init.Some? {
      FormPrints(s.init.value, 0, k1);
    }
    var word := Symbol(if s.isConst then TConst else TVar);
    assert [word, Name(s.name)] + k2 == [word] + ([Name(s.name)] + k2);
  }

  lemma {:induction false} IfPrints(s: Stmt, k: seq<Token>)
    requires s.If?
    ensures StmtFormTokens(StmtFormOf(s), k) == StmtTokens(s, k)
    decreases s, 0
  {
    hide FormOf, FormTokens, ExprTokens, StmtFormOf, StmtFormTokens, StmtTokens, Symbol;
    var k1 := if s.els.None? then k else [Symbol(TElse)] + StmtTokens(s.els.value, k);
    if s.els.Some? {
      StmtFormPrints(s.els.value, k);
    }
    StmtFormPrints(s.thn, k1);
    var k2 := [Symbol(TParenClose)] + StmtTokens(s.thn, k1);
    FormPrints(s.cond, 0, k2);
    IfUnfolds(s, k);
    assert [Symbol(TIf), Symbol(TParenOpen)] + ExprTokens(s.cond, 0, k2)
        == [Symbol(TIf)] + ([Symbol(TParenOpen)] + ExprTokens(s.cond, 0, k2));
  }

  lemma IfUnfolds(s: Stmt, k: seq<Token>)
    requires s.If?
    ensures StmtTokens(s, k) == [Symbol(TIf), Symbol(TParenOpen)] + ExprTokens(s.cond, 0, [Symbol(TParenClose)]
              + StmtTokens(s.thn, if s.els.None? then k else [Symbol(TElse)] + StmtTokens(s.els.value, k)))
    ensures StmtFormTokens(StmtFormOf(s), k)
         == [Symbol(TIf)] + ([Symbol(TParenOpen)] + FormTokens(FormOf(s.cond, 0), [Symbol(TParenClose)]
              + StmtFormTokens(StmtFormOf(s.thn),
                  if s.els.None? then k else [Symbol(TElse)] + StmtFormTokens(StmtFormOf(s.els.value), k))))
  {
    hide FormOf, FormTokens, ExprTokens, Symbol;
  }

  lemma {:induction false} LoopPrints(s: Stmt, k: seq<Token>)
    requires s.Loop?
    ensures StmtFormTokens(StmtFormOf(s), k) == StmtTokens(s, k)
    decreases s, 0
  {
    hide FormOf, FormTokens, ExprTokens, Symbol;
    var k1 := LoopBodyTokens(s.count, s.iterVar, s.loopBody, k);
    if Shielded(s.count, s.iterVar, s.loopBody) {
      FormPrints(s.loopBody.e, 5, [Symbol(TSemicolon)] + k);
    } else {
      StmtFormPrints(s.loopBody, k);
    }
    if s.count.Some? {
      var named := if s.iterVar.None? then k1 else [Name(s.iterVar.value)] + k1;
      FormPrints(s.count.value, 0, [Symbol(TParenClose)] + named);
    }
  }

  lemma {:induction false} FnPrints(fname: string, params: seq<string>, body: seq<Stmt>, k: seq<Token>)
    ensures StmtFormTokens(StmtFormOf(FnDecl(fname, params, body)), k) == StmtTokens(FnDecl(fname, params, body), k)
    decreases body, 3
  {
    hide StmtFormsOf, StmtsTokens, StmtFormsTokens, Symbol, NameTokens, ParamTokens;
    var k1 := [Symbol(TBraceClose)] + k;
    StmtFormsPrint(body, k1);
    var k2 := [Symbol(TParenClose), Symbol(TBraceOpen)] + StmtsTokens(body, k1);
    assert k2 == [Symbol(TParenClose)] + ([Symbol(TBraceOpen)] + StmtsTokens(body, k1));
    NamesPrint(params, k2);
    assert [Symbol(TFunction), Name(fname), Symbol(TParenOpen)] + NameTokens(params, k2)
        == [Symbol(TFunction)] + ([Name(fname)] + ([Symbol(TParenOpen)] + NameTokens(params, k2)));
  }

  lemma {:induction false} StmtFormsPrint(ss: seq<Stmt>, k: seq<Token>)
    ensures StmtFormsTokens(StmtFormsOf(ss), k) == StmtsTokens(ss, k)
    decreases ss, 2
  {
    hide StmtFormOf, StmtFormTokens, StmtTokens;
    if ss != [] {
      StmtFormsPrint(ss[1..], k);
      assert StmtFormsOf(ss)[1..] == StmtFormsOf(ss[1..]);
      StmtFormPrints(ss[0], StmtsTokens(ss[1..], k));
    }
  }

  // Parsing undoes printing: every program that can be written is read back from its tokens.
  lemma ProgramReadBack(program: seq<Stmt>)
    requires WfProgram(program)
    ensures ParseProgram(ProgramTokens(program)) == Ok(program, [Symbol(TEof)])
  {
    hide WfStmt, ParseProgram, StmtFormsOf;
    StmtFormsMean(program);
    StmtFormsPrint(program, [Symbol(TEof)]);
    RoundTrip.FormsReadBack(StmtFormsOf(program), [Symbol(TEof)]);
  }

  // ----- spellings that are never printed -----

  // The tokens of `loop (count as name)`, with a second name behind it or none, in front of k.
  function AsHead(count: Expr, name: string, second: Option<string>, k: seq<Token>): seq<Token> {
    var k1 := [Symbol(TParenClose)] + if second.None? then k else [Name(second.value)] + k;
    [Symbol(TLoop)] + ([Symbol(TParenOpen)] + ExprTokens(count, 0, [Symbol(TAs)] + ([Name(name)] + k1)))
  }

  // `loop (count as name) body` is the loop over name, and with a second name behind the
  // parenthesis the loop over that one.
  lemma LoopsWithAs(count: Expr, name: string, second: Option<string>, body: Stmt, k: seq<Token>)
    requires WfExpr(count) && WfStmt(body) && (second.None? ==> FirstOfStmt(body) != TIdent)
    requires k != [] && k[0].typ != TSemicolon && (Open(body) ==> k[0].typ != TElse)
    ensures ParseStmt(AsHead(count, name, second, StmtTokens(body, k)))
         == Ok(Loop(Some(count), Some(if second.None? then name else second.value), body), k)
  {
    hide ParseStmt, FormOf, FormTokens, ExprTokens, StmtFormOf, StmtFormTokens, StmtTokens, Proper, Meaning, Symbol;
    hide ProperStmt, StmtMeaning;
    FormMeans(count, 0);
    StmtFormMeans(body);
    StmtFormPrints(body, k);
    FormsOfStmts(body);
    var k1 := [Symbol(TParenClose)] + if second.None? then StmtTokens(body, k) else [Name(second.value)] + StmtTokens(body, k);
    FormPrints(count, 0, [Symbol(TAs)] + ([Name(name)] + k1));
    var form := LoopForm(Some(Count(FormOf(count, 0), Some(name))), second, StmtFormOf(body));
    AsLoop(FormOf(count, 0), name, second, StmtFormOf(body), k);
    RoundTrip.StmtReadBack(form, k);
  }

  lemma AsLoop(count: Form, name: string, second: Option<string>, body: StmtForm, k: seq<Token>)
    requires Proper(count) && ProperStmt(body) && (second.None? ==> FirstOfStmtForm(body) != TIdent)
    ensures var form := LoopForm(Some(Count(count, Some(name))), second, body);
      var k1 := [Symbol(TParenClose)] + if second.None? then StmtFormTokens(body, k) else [Name(second.value)] + StmtFormTokens(body, k);
      && ProperStmt(form) && OpenForm(form) == OpenForm(body)
      && StmtMeaning(form) == Loop(Some(Meaning(count)), Some(if second.None? then name else second.value), StmtMeaning(body))
      && StmtFormTokens(form, k)
         == [Symbol(TLoop)] + ([Symbol(TParenOpen)] + FormTokens(count, [Symbol(TAs)] + ([Name(name)] + k1)))
  {
    hide FormTokens, Symbol, Proper, Meaning;
  }

  // Arguments, each followed by a comma or not.
  function LooseTokens(args: seq<Expr>, commas: seq<bool>, k: seq<Token>): seq<Token>
    requires |commas| == |args|
  {
    if args == [] then k else ExprTokens(args[0], 0, Comma(commas[0], LooseTokens(args[1..], commas[1..], k)))
  }

  function LooseArgs(args: seq<Expr>, commas: seq<bool>): seq<Arg>
    requires |commas| == |args|
  {
    seq(|args|, i requires 0 <= i < |args| => Arg(FormOf(args[i], 0), commas[i]))
  }

  lemma {:induction false} LooseArgsPrint(args: seq<Expr>, commas: seq<bool>, k: seq<Token>)
    requires |commas| == |args|
    ensures ArgsTokens(LooseArgs(args, commas), k) == LooseTokens(args, commas, k)
    decreases |args|
  {
    hide FormOf, FormTokens, ExprTokens, Comma;
    if args != [] {
      LooseArgsPrint(args[1..], commas[1..], k);
      assert LooseArgs(args, commas)[1..] == LooseArgs(args[1..], commas[1..]);
      FormPrints(args[0], 0, Comma(commas[0], LooseTokens(args[1..], commas[1..], k)));
    }
  }

  // Commas between arguments may be left out, except in front of a parenthesis, and one may stand
  // behind the last: the call is the same.
  lemma CommasOptional(callee: string, args: seq<Expr>, commas: seq<bool>, k: seq<Token>)
    requires |commas| == |args| && (forall a :: a in args ==> WfExpr(a)) && k != []
    requires forall i :: 0 < i < |args| && !commas[i - 1] ==> FirstOfExpr(args[i], 0) != TParenOpen
    ensures ParseCall([Name(callee)] + ([Symbol(TParenOpen)] + LooseTokens(args, commas, [Symbol(TParenClose)] + k)))
         == Ok(Call(callee, args), k)
  {
    var loose := LooseArgs(args, commas);
    var k1 := [Symbol(TParenClose)] + k;
    hide ParseCall, ParseArgs, Symbol, LooseArgs, LooseTokens, RoundTrip.ProperArgs, RoundTrip.ArgMeanings;
    LooseArgsMean(args, commas);
    LooseArgsPrint(args, commas, k1);
    RoundTrip.ArgsGrow(loose, k1);
    RoundTrip.ArgsReadBack(loose, k1);
    RoundTrip.CallStep(callee, args, LooseTokens(args, commas, k1), k);
  }

  lemma LooseArgsMean(args: seq<Expr>, commas: seq<bool>)
    requires |commas| == |args| && forall a :: a in args ==> WfExpr(a)
    requires forall i :: 0 < i < |args| && !commas[i - 1] ==> FirstOfExpr(args[i], 0) != TParenOpen
    ensures var loose := LooseArgs(args, commas);
      RoundTrip.ProperArgs(loose) && RoundTrip.ArgMeanings(loose) == args
  {
    var loose := LooseArgs(args, commas);
    hide FormOf, Proper, Meaning, WfExpr, FirstOfExpr, FirstOf;
    forall i | 0 <= i < |args|
      ensures Proper(loose[i].form) && Meaning(loose[i].form) == args[i]
      ensures FirstOf(loose[i].form) == FirstOfExpr(args[i], 0)
    {
      FormMeans(args[i], 0);
      FormStarts(args[i], 0);
    }
  }
}
