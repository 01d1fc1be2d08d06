/**
  The printer uses as few parentheses as the grammar allows: no token list that is read as a
  program has fewer opening parentheses than the printed form of that program.
*/
module Parentheses {
  import opened Ast
  import opened Tokens
  import opened Grammar
  import opened Printer
  import ParserImage
  import Decimal

  function Opens(ts: seq<Token>): nat {
    if ts == [] then 0 else (if ts[0].typ == TParenOpen then 1 else 0) + Opens(ts[1..])
  }

  lemma OpensStep(t: Token, k: seq<Token>)
    ensures Opens([t] + k) == (if t.typ == TParenOpen then 1 else 0) + Opens(k)
  {
    assert ([t] + k)[1..] == k;
  }

  lemma OpensTail(ts: seq<Token>)
    ensures ts != [] ==> Opens(ts) == (if ts[0].typ == TParenOpen then 1 else 0) + Opens(ts[1..])
  {
  }

  lemma OpensSteps(t: Token, u: Token, k: seq<Token>)
    ensures Opens([t, u] + k) == (if t.typ == TParenOpen then 1 else 0) + (if u.typ == TParenOpen then 1 else 0) + Opens(k)
  {
    assert [t, u] + k == [t] + ([u] + k);
    OpensStep(t, [u] + k);
    OpensStep(u, k);
  }

  // ----- the parentheses of the printed form -----

  function ExprParens(e: Expr, level: nat): nat
    decreases e, 1
  {
    (if Level(e) < level then 1 else 0) + BareParens(e)
  }

  function BareParens(e: Expr): nat
    decreases e, 0
  {
    match e
    case Binary(op, left, right) => ExprParens(left, OperatorLevel(op)) + ExprParens(right, OperatorLevel(op) + 1)
    case Assign(_, value) => ExprParens(value, 0)
    case Call(_, args) => 1 + ListParens(args)
    case ArrayLit(elems) => ListParens(elems)
    case _ => 0
  }

  function ListParens(es: seq<Expr>): nat
    decreases es, 2
  {
    if es == [] then 0 else ExprParens(es[0], 0) + ListParens(es[1..])
  }

  function CountParens(count: Option<Expr>): nat {
    if count.None? then 0 else 1 + ExprParens(count.value, 0)
  }

  function StmtParens(s: Stmt): nat
    decreases s, 0
  {
    match s
    case ExprStmt(e) => ExprParens(e, 0)
    case VarDecl(_, _, init) => if init.None? then 0 else ExprParens(init.value, 0)
    case FnDecl(_, _, body) => 1 + StmtsParens(body)
    case Block(stmts) => StmtsParens(stmts)
    case If(cond, thn, els) =>
      1 + ExprParens(cond, 0) + StmtParens(thn) + if els.None? then 0 else StmtParens(els.value)
    case Loop(count, iterVar, body) =>
      CountParens(count) + StmtParens(body) + if Shielded(count, iterVar, body) then 1 else 0
  }

  function StmtsParens(ss: seq<Stmt>): nat
    decreases ss, 2
  {
    if ss == [] then 0 else StmtParens(ss[0]) + StmtsParens(ss[1..])
  }

  lemma {:induction false} ExprPrints(e: Expr, level: nat, k: seq<Token>)
    ensures Opens(ExprTokens(e, level, k)) == ExprParens(e, level) + Opens(k)
    decreases e, 1
  {
    hide Opens, BareTokens, BareParens;
    if Level(e) < level {
      var k1 := [Symbol(TParenClose)] + k;
      BarePrints(e, k1);
      OpensStep(Symbol(TParenClose), k);
      OpensStep(Symbol(TParenOpen), BareTokens(e, k1));
    } else {
      BarePrints(e, k);
    }
  }

  lemma {:induction false} BarePrints(e: Expr, k: seq<Token>)
    ensures Opens(BareTokens(e, k)) == BareParens(e) + Opens(k)
    decreases e, 0
  {
    hide Opens, ExprTokens, ListTokens, ListParens, ExprParens, Symbol;
    match e
    case IntLit(n) => OpensStep(Token(TInt, Decimal.Signed(n)), k);
    case StrLit(s) => OpensStep(Token(TString, s), k);
    case Ident(name) => OpensStep(Name(name), k);
    case Binary(op, left, right) =>
      var k1 := ExprTokens(right, OperatorLevel(op) + 1, k);
      ExprPrints(right, OperatorLevel(op) + 1, k);
      OpensStep(Token(TOperator, OperatorText(op)), k1);
      ExprPrints(left, OperatorLevel(op), [Token(TOperator, OperatorText(op))] + k1);
    case Assign(target, value) =>
      ExprPrints(value, 0, k);
      OpensSteps(Name(target), Symbol(TAssign), ExprTokens(value, 0, k));
    case Call(callee, args) =>
      var k1 := [Symbol(TParenClose)] + k;
      OpensStep(Symbol(TParenClose), k);
      ListPrints(args, k1);
      OpensSteps(Name(callee), Symbol(TParenOpen), ListTokens(args, k1));
    case ArrayLit(elems) =>
      var k1 := [Symbol(TSquareClose)] + k;
      OpensStep(Symbol(TSquareClose), k);
      ListPrints(elems, k1);
      OpensSteps(Symbol(TArray), Symbol(TSquareOpen), ListTokens(elems, k1));
  }

  lemma {:induction false} ListPrints(es: seq<Expr>, k: seq<Token>)
    ensures Opens(ListTokens(es, k)) == ListParens(es) + Opens(k)
    decreases es, 2
  {
    hide Opens, ExprTokens, ExprParens, Symbol;
    if es == [] {
    } else if |es| == 1 {
      ExprPrints(es[0], 0, k);
      assert ListParens(es[1..]) == 0;
    } else {
      var k1 := ListTokens(es[1..], k);
      ListPrints(es[1..], k);
      OpensStep(Symbol(TComma), k1);
      ExprPrints(es[0], 0, [Symbol(TComma)] + k1);
    }
  }

  lemma {:induction false} NamesPrint(names: seq<string>, k: seq<Token>)
    ensures Opens(NameTokens(names, k)) == Opens(k)
  {
    hide Opens, Symbol;
    if names == [] {
    } else if |names| == 1 {
      OpensStep(Name(names[0]), k);
    } else {
      NamesPrint(names[1..], k);
      OpensSteps(Name(names[0]), Symbol(TComma), NameTokens(names[1..], k));
    }
  }

  lemma {:induction false} StmtPrints(s: Stmt, k: seq<Token>)
    ensures Opens(StmtTokens(s, k)) == StmtParens(s) + Opens(k)
    decreases s, 0
  {
    hide Opens, ExprTokens, ExprParens, StmtsTokens, StmtsParens, Symbol, LoopHead, LoopBodyTokens, CountParens;
    match s
    case ExprStmt(e) =>
      OpensStep(Symbol(TSemicolon), k);
      ExprPrints(e, 0, [Symbol(TSemicolon)] + k);
    case VarDecl(name, isConst, init) =>
      OpensStep(Symbol(TSemicolon), k);
      if init.Some? {
        var k1 := ExprTokens(init.value, 0, [Symbol(TSemicolon)] + k);
        ExprPrints(init.value, 0, [Symbol(TSemicolon)] + k);
        OpensStep(Symbol(TAssign), k1);
        OpensSteps(Symbol(if isConst then TConst else TVar), Name(name), [Symbol(TAssign)] + k1);
      } else {
        OpensSteps(Symbol(if isConst then TConst else TVar), Name(name), [Symbol(TSemicolon)] + k);
      }
    case FnDecl(fname, params, body) =>
      FnPrints(fname, params, body, k);
    case Block(stmts) =>
      OpensStep(Symbol(TBraceClose), k);
      StmtsPrint(stmts, [Symbol(TBraceClose)] + k);
      OpensStep(Symbol(TBraceOpen), StmtsTokens(stmts, [Symbol(TBraceClose)] + k));
    case If(cond, thn, els) =>
      var k1 := if els.None? then k else [Symbol(TElse)] + StmtTokens(els.value, k);
      if els.Some? {
        StmtPrints(els.value, k);
        OpensStep(Symbol(TElse), StmtTokens(els.value, k));
      }
      var k2 := StmtTokens(thn, k1);
      StmtPrints(thn, k1);
      OpensStep(Symbol(TParenClose), k2);
      ExprPrints(cond, 0, [Symbol(TParenClose)] + k2);
      OpensSteps(Symbol(TIf), Symbol(TParenOpen), ExprTokens(cond, 0, [Symbol(TParenClose)] + k2));
    case Loop(count, iterVar, body) =>
      LoopBodyPrints(count, iterVar, body, k);
      var k1 := LoopBodyTokens(count, iterVar, body, k);
      LoopHeadPrints(count, iterVar, k1);
      OpensStep(Symbol(TLoop), LoopHead(count, iterVar, k1));
  }

  lemma {:induction false} FnPrints(fname: string, params: seq<string>, body: seq<Stmt>, k: seq<Token>)
    ensures Opens(StmtTokens(FnDecl(fname, params, body), k)) == 1 + StmtsParens(body) + Opens(k)
    decreases body, 3
  {
    hide Opens, StmtsTokens, StmtsParens, NameTokens, Symbol;
    OpensStep(Symbol(TBraceClose), k);
    StmtsPrint(body, [Symbol(TBraceClose)] + k);
    var k1 := StmtsTokens(body, [Symbol(TBraceClose)] + k);
    OpensSteps(Symbol(TParenClose), Symbol(TBraceOpen), k1);
    NamesPrint(params, [Symbol(TParenClose), Symbol(TBraceOpen)] + k1);
    var k2 := NameTokens(params, [Symbol(TParenClose), Symbol(TBraceOpen)] + k1);
    assert StmtTokens(FnDecl(fname, params, body), k) == [Symbol(TFunction)] + ([Name(fname), Symbol(TParenOpen)] + k2);
    OpensSteps(Name(fname), Symbol(TParenOpen), k2);
    OpensStep(Symbol(TFunction), [Name(fname), Symbol(TParenOpen)] + k2);
  }

  lemma LoopHeadPrints(count: Option<Expr>, iterVar: Option<string>, k: seq<Token>)
    ensures Opens(LoopHead(count, iterVar, k)) == CountParens(count) + Opens(k)
  {
    hide Opens, ExprTokens, ExprParens, Symbol;
    var named := if iterVar.None? then k else [Name(iterVar.value)] + k;
    if iterVar.Some? {
      OpensStep(Name(iterVar.value), k);
    }
    if count.Some? {
      OpensStep(Symbol(TParenClose), named);
      ExprPrints(count.value, 0, [Symbol(TParenClose)] + named);
      OpensStep(Symbol(TParenOpen), ExprTokens(count.value, 0, [Symbol(TParenClose)] + named));
    }
  }

  lemma {:induction false} LoopBodyPrints(count: Option<Expr>, iterVar: Option<string>, body: Stmt, k: seq<Token>)
    ensures Opens(LoopBodyTokens(count, iterVar, body, k))
         == StmtParens(body) + (if Shielded(count, iterVar, body) then 1 else 0) + Opens(k)
    decreases body, 1
  {
    hide Opens, ExprTokens, BareParens, StmtTokens, Symbol;
    if Shielded(count, iterVar, body) {
      OpensStep(Symbol(TSemicolon), k);
      ExprPrints(body.e, 5, [Symbol(TSemicolon)] + k);
    } else {
      StmtPrints(body, k);
    }
  }

  lemma {:induction false} StmtsPrint(ss: seq<Stmt>, k: seq<Token>)
    ensures Opens(StmtsTokens(ss, k)) == StmtsParens(ss) + Opens(k)
    decreases ss, 2
  {
    hide Opens, StmtTokens, StmtParens;
    if ss != [] {
      StmtsPrint(ss[1..], k);
      StmtPrints(ss[0], StmtsTokens(ss[1..], k));
    }
  }

  // ----- the parentheses of what was read -----

  // One more than the printed form has, where the text starts with a parenthesis and it does not.
  function Spare(ts: seq<Token>, e: Expr, level: nat): nat {
    if At(ts, TParenOpen) && FirstOfExpr(e, level) != TParenOpen then 1 else 0
  }

  // Reading e from ts up to rest took at least the parentheses of its printed form.
  ghost predicate Paid(ts: seq<Token>, e: Expr, level: nat, rest: seq<Token>) {
    Opens(ts) >= ExprParens(e, level) + Spare(ts, e, level) + Opens(rest)
  }

  ghost predicate PaidBy(ts: seq<Token>, r: Parse<Expr>, level: nat) { r.Ok? ==> Paid(ts, r.value, level, r.rest) }

  lemma LowerLevel(ts: seq<Token>, r: Parse<Expr>, level: nat)
    requires PaidBy(ts, r, level + 1)
    ensures PaidBy(ts, r, level)
  {
  }

  lemma {:induction false} ExprPays(ts: seq<Token>)
    ensures PaidBy(ts, ParseExpr(ts), 0)
    decreases |ts|, 8
  {
    hide ParseArray, Progress, Opens;
    if !AtEof(ts) && |ts| > 1 && ts[1].typ == TAssign {
      if ts[0].typ == TIdent {
        OpensTail(ts);
        OpensTail(ts[1..]);
        ExprPays(ts[1..][1..]);
        var r := ParseExpr(ts);
        if r.Ok? {
          assert BareParens(r.value) == ExprParens(r.value.value, 0);
        }
      }
    } else {
      ArrayPays(ts);
    }
  }

  lemma {:induction false} ArrayPays(ts: seq<Token>)
    ensures PaidBy(ts, ParseArray(ts), 0)
    decreases |ts|, 7
  {
    hide ParseBinary, ParseElems, Progress, Opens;
    if ts != [] && ts[0].typ != TArray {
      BinaryPays(1, ts);
      LowerLevel(ts, ParseBinary(1, ts), 0);
    } else if |ts| > 1 && ts[0].typ == TArray {
      OpensTail(ts);
      OpensTail(ts[1..]);
      ElemsPay(ts[1..][1..]);
      if ParseElems(ts[1..][1..]).Ok? {
        OpensTail(ParseElems(ts[1..][1..]).rest);
        assert BareParens(ArrayLit(ParseElems(ts[1..][1..]).value)) == ListParens(ParseElems(ts[1..][1..]).value);
      }
    }
  }

  lemma FirstOfList(e: Expr, es: seq<Expr>)
    ensures ListParens([e] + es) == ExprParens(e, 0) + ListParens(es)
  {
    assert ([e] + es)[1..] == es;
  }

  lemma {:induction false} ElemsPay(ts: seq<Token>)
    ensures var r := ParseElems(ts);
      r.Ok? ==> Opens(ts) >= ListParens(r.value) + Opens(r.rest)
    decreases |ts|, 9
  {
    hide ParseExpr, ExprParens, FirstOfExpr;
    if !(AtEof(ts) || ts[0].typ == TSquareClose) {
      ExprPays(ts);
      var r := ParseExpr(ts);
      if r.Ok? && r.rest != [] && r.rest[0].typ == TComma {
        ElemsPay(r.rest[1..]);
        var rest := ParseElems(r.rest[1..]);
        if rest.Ok? {
          FirstOfList(r.value, rest.value);
        }
      } else if r.Ok? {
        FirstOfList(r.value, []);
        assert [r.value] + [] == [r.value];
      }
    }
  }

  lemma {:induction false} BinaryPays(level: nat, ts: seq<Token>)
    requires 1 <= level <= 3
    ensures PaidBy(ts, ParseBinary(level, ts), level)
    decreases |ts|, 6 - level
  {
    hide ParseOperand, ParseChain, Paid;
    OperandPays(level, ts);
    var r := ParseOperand(level, ts);
    LowerLevel(ts, r, level);
    if r.Ok? {
      ChainPays(level, r.value, r.rest, ts);
    }
  }

  lemma {:induction false} OperandPays(level: nat, ts: seq<Token>)
    requires 1 <= level <= 3
    ensures PaidBy(ts, ParseOperand(level, ts), level + 1)
    decreases |ts|, 6 - level, 0
  {
    hide Paid;
    if level == 3 {
      CallPays(ts);
    } else {
      BinaryPays(level + 1, ts);
    }
  }

  lemma {:induction false} ChainPays(level: nat, left: Expr, ts: seq<Token>, start: seq<Token>)
    requires 1 <= level <= 3 && Paid(start, left, level, ts) && |ts| < |start|
    ensures PaidBy(start, ParseChain(level, left, ts), level)
    decreases |ts|, 0
  {
    hide ParseOperand, OperatorOf, Opens;
    if ts != [] && IsOperatorAt(level, ts[0]) {
      OpensTail(ts);
      OperandPays(level, ts[1..]);
      ParserImage.OperatorsAreOfTheirLevel(level, ts[0]);
      var r := ParseOperand(level, ts[1..]);
      if r.Ok? {
        var e := Binary(OperatorOf(ts[0]), left, r.value);
        assert BareParens(e) == ExprParens(left, level) + ExprParens(r.value, level + 1);
        assert FirstOfExpr(e, level) == FirstOfExpr(left, level);
        ChainPays(level, e, r.rest, start);
      }
    }
  }

  lemma {:induction false} CallPays(ts: seq<Token>)
    ensures PaidBy(ts, ParseCall(ts), 4)
    decreases |ts|, 2
  {
    hide ParseArgs, ParsePrimary, Opens;
    if |ts| > 2 && ts[0].typ == TIdent && ts[1].typ == TParenOpen {
      assert ts[2..] == ts[1..][1..];
      OpensTail(ts);
      OpensTail(ts[1..]);
      ArgsPay(ts[2..]);
      if ParseArgs(ts[2..]).Ok? {
        OpensTail(ParseArgs(ts[2..]).rest);
        assert BareParens(Call(ts[0].text, ParseArgs(ts[2..]).value)) == 1 + ListParens(ParseArgs(ts[2..]).value);
      }
    } else {
      PrimaryPays(ts);
    }
  }

  lemma {:induction false} ArgsPay(ts: seq<Token>)
    ensures var r := ParseArgs(ts);
      r.Ok? ==> Opens(ts) >= ListParens(r.value) + Opens(r.rest)
    decreases |ts|, 9
  {
    hide ParseExpr, ExprParens, FirstOfExpr;
    if !(AtEof(ts) || ts[0].typ == TParenClose) {
      ExprPays(ts);
      var r := ParseExpr(ts);
      if r.Ok? && r.rest != [] {
        var ts1 := if r.rest[0].typ == TComma then r.rest[1..] else r.rest;
        ArgsPay(ts1);
        var rest := ParseArgs(ts1);
        if rest.Ok? {
          FirstOfList(r.value, rest.value);
        }
      }
    }
  }

  lemma {:induction false} PrimaryPays(ts: seq<Token>)
    ensures PaidBy(ts, ParsePrimary(ts), 4)
    decreases |ts|, 1
  {
    hide ParseExpr, Opens;
    OpensTail(ts);
    if At(ts, TParenOpen) {
      ExprPays(ts[1..]);
      var r := ParseExpr(ts[1..]);
      if r.Ok? {
        OpensTail(r.rest);
        assert ExprParens(r.value, 4) + Spare(ts, r.value, 4) <= 1 + ExprParens(r.value, 0);
      }
    } else if ParsePrimary(ts).Ok? {
      assert BareParens(ParsePrimary(ts).value) == 0;
    }
  }

  // Reading a statement took at least its parentheses, and one more where it started with a
  // parenthesis and its printed form does not.
  ghost predicate StmtPaid(ts: seq<Token>, r: Parse<Stmt>) {
    r.Ok? ==>
      Opens(ts) >= StmtParens(r.value) + (if At(ts, TParenOpen) && FirstOfStmt(r.value) != TParenOpen then 1 else 0)
                   + Opens(r.rest)
  }

  lemma {:induction false} SemicolonsPay(ts: seq<Token>)
    ensures SkipSemicolons(ts).Ok? ==> Opens(SkipSemicolons(ts).rest) == Opens(ts)
  {
    hide Opens;
    OpensTail(ts);
    if At(ts, TSemicolon) {
      SemicolonsPay(ts[1..]);
    }
  }

  lemma {:induction false} StmtPays(ts: seq<Token>)
    ensures StmtPaid(ts, ParseStmt(ts))
    decreases |ts|, 11
  {
    hide ParseBareStmt, SkipSemicolons, Opens, StmtParens, FirstOfStmt;
    BareStmtPays(ts);
    if ParseBareStmt(ts).Ok? {
      SemicolonsPay(ParseBareStmt(ts).rest);
    }
  }

  lemma {:induction false} BareStmtPays(ts: seq<Token>)
    ensures StmtPaid(ts, ParseBareStmt(ts))
    decreases |ts|, 10
  {
    hide ParseVarDecl, ParseFnDecl, ParseBlock, ParseIf, ParseLoop, ParseExpr, Progress, Opens;
    if ts != [] {
      match ts[0].typ
      case TVar =>
        VarDeclPays(ts);
        if ParseVarDecl(ts).Ok? { OpensTail(ParseVarDecl(ts).rest); }
      case TConst =>
        VarDeclPays(ts);
        if ParseVarDecl(ts).Ok? { OpensTail(ParseVarDecl(ts).rest); }
      case TFunction => FnDeclPays(ts);
      case TBraceOpen => BlockPays(ts);
      case TIf => IfPays(ts);
      case TLoop => LoopPays(ts);
      case _ =>
        ExprPays(ts);
        if ParseExpr(ts).Ok? { OpensTail(ParseExpr(ts).rest); }
    }
  }

  lemma VarDeclPays(ts: seq<Token>)
    requires At(ts, TVar) || At(ts, TConst)
    ensures var r := ParseVarDecl(ts);
      r.Ok? ==> Opens(ts) >= StmtParens(r.value) + Opens(r.rest)
  {
    hide ParseExpr, Opens;
    OpensTail(ts);
    OpensTail(ts[1..]);
    if |ts| > 2 {
      OpensTail(ts[1..][1..]);
      ExprPays(ts[1..][1..][1..]);
    }
  }

  lemma {:induction false} ParamsPay(ts: seq<Token>)
    ensures ParseParams(ts).Ok? ==> Opens(ts) == Opens(ParseParams(ts).rest)
    decreases |ts|
  {
    hide Opens;
    OpensTail(ts);
    if |ts| > 1 && !AtEof(ts) && ts[0].typ == TIdent && ts[1].typ == TComma {
      OpensTail(ts[1..]);
      ParamsPay(ts[1..][1..]);
    }
  }

  lemma FnHeadPays(ts: seq<Token>)
    ensures ParseFnHead(ts).Ok? ==> At(ts, TFunction) && Opens(ts) == 1 + Opens(ParseFnHead(ts).rest)
  {
    hide ParseParams, Opens;
    if ParseFnHead(ts).Ok? {
      OpensTail(ts);
      OpensTail(ts[1..]);
      OpensTail(ts[1..][1..]);
      ParamsPay(ts[1..][1..][1..]);
      OpensTail(ParseParams(ts[1..][1..][1..]).rest);
    }
  }

  lemma {:induction false} FnDeclPays(ts: seq<Token>)
    ensures StmtPaid(ts, ParseFnDecl(ts))
    decreases |ts|, 9
  {
    hide ParseFnHead, ParseStmts, Opens;
    if ParseFnDecl(ts).Ok? {
      FnHeadPays(ts);
      var ts1 := ParseFnHead(ts).rest;
      OpensTail(ts1);
      StmtsPay(ts1[1..], true);
      OpensTail(ParseStmts(ts1[1..], true).rest);
      assert StmtParens(ParseFnDecl(ts).value) == 1 + StmtsParens(ParseStmts(ts1[1..], true).value);
    }
  }

  lemma {:induction false} BlockPays(ts: seq<Token>)
    ensures StmtPaid(ts, ParseBlock(ts))
    decreases |ts|, 9
  {
    hide ParseStmts, Opens;
    if ParseBlock(ts).Ok? {
      OpensTail(ts);
      StmtsPay(ts[1..], true);
      OpensTail(ParseStmts(ts[1..], true).rest);
      assert StmtParens(ParseBlock(ts).value) == StmtsParens(ParseStmts(ts[1..], true).value);
    }
  }

  lemma ConditionPays(ts: seq<Token>)
    ensures var r := ParseCondition(ts);
      r.Ok? ==> At(ts, TIf) && Opens(ts) >= 1 + ExprParens(r.value, 0) + Opens(r.rest)
    decreases |ts|, 8
  {
    hide ParseExpr, Opens;
    if ParseCondition(ts).Ok? {
      OpensTail(ts);
      OpensTail(ts[1..]);
      ExprPays(ts[1..][1..]);
      OpensTail(ParseExpr(ts[1..][1..]).rest);
    }
  }

  lemma IfParens(s: Stmt)
    requires s.If?
    ensures StmtParens(s) == 1 + ExprParens(s.cond, 0) + StmtParens(s.thn) + if s.els.None? then 0 else StmtParens(s.els.value)
  {
  }

  lemma {:induction false} IfPays(ts: seq<Token>)
    ensures StmtPaid(ts, ParseIf(ts))
    decreases |ts|, 9
  {
    hide ParseCondition, ParseStmt, Opens, StmtParens;
    if ParseIf(ts).Ok? {
      ConditionPays(ts);
      var ts1 := ParseCondition(ts).rest;
      StmtPays(ts1);
      var ts2 := ParseStmt(ts1).rest;
      OpensTail(ts2);
      var s := ParseIf(ts).value;
      assert s.cond == ParseCondition(ts).value && s.thn == ParseStmt(ts1).value;
      if At(ts2, TElse) {
        StmtPays(ts2[1..]);
        assert s.els.Some? && s.els.value == ParseStmt(ts2[1..]).value;
      }
      IfParens(s);
    }
  }

  lemma LoopCountPays(ts: seq<Token>)
    ensures var r := ParseLoopCount(ts);
      r.Ok? ==> Opens(ts) >= CountParens(r.value.0) + Opens(r.rest)
  {
    hide ParseExpr, Opens;
    if At(ts, TParenOpen) {
      OpensTail(ts);
      ExprPays(ts[1..]);
      var r := ParseExpr(ts[1..]);
      if r.Ok? {
        AsNamePays(r.rest);
        var named := ParseAsName(r.rest);
        if named.Ok? {
          OpensTail(named.rest);
        }
      }
    }
  }

  lemma AsNamePays(ts: seq<Token>)
    ensures ParseAsName(ts).Ok? ==> Opens(ts) == Opens(ParseAsName(ts).rest)
  {
    hide Opens;
    OpensTail(ts);
    if |ts| > 1 {
      OpensTail(ts[1..]);
    }
  }

  // The body of a loop without a variable cannot start with an identifier: one that is printed
  // with an identifier first was read from a parenthesis.
  lemma {:induction false} LoopPays(ts: seq<Token>)
    ensures StmtPaid(ts, ParseLoop(ts))
    decreases |ts|, 9
  {
    hide ParseLoopCount, ParseStmt, Opens, FirstOfExpr, Progress;
    if ParseLoop(ts).Ok? {
      OpensTail(ts);
      LoopCountPays(ts[1..]);
      var ts2 := ParseLoopCount(ts[1..]).rest;
      OpensTail(ts2);
      var ts3 := if ts2[0].typ == TIdent then ts2[1..] else ts2;
      StmtPays(ts3);
      ParserImage.StmtImage(ts3);
    }
  }

  lemma FirstOfStmts(s: Stmt, ss: seq<Stmt>)
    ensures StmtsParens([s] + ss) == StmtParens(s) + StmtsParens(ss)
  {
    assert ([s] + ss)[1..] == ss;
  }

  lemma {:induction false} StmtsPay(ts: seq<Token>, inBraces: bool)
    ensures var r := ParseStmts(ts, inBraces);
      r.Ok? ==> Opens(ts) >= StmtsParens(r.value) + Opens(r.rest)
    decreases |ts|, 12
  {
    hide ParseStmt, StmtParens, Opens, FirstOfStmt;
    if !(AtEof(ts) || (inBraces && ts[0].typ == TBraceClose)) {
      StmtPays(ts);
      var r := ParseStmt(ts);
      if r.Ok? {
        StmtsPay(r.rest, inBraces);
        var rest := ParseStmts(r.rest, inBraces);
        if rest.Ok? {
          FirstOfStmts(r.value, rest.value);
        }
      }
    }
  }

  // ----- the printed form has the fewest -----

  // Whatever an expression was read from, its printed form in front of the same rest has no more
  // parentheses.
  lemma FewestInExpressions(ts: seq<Token>)
    requires ParseExpr(ts).Ok?
    ensures Opens(ExprTokens(ParseExpr(ts).value, 0, ParseExpr(ts).rest)) <= Opens(ts)
  {
    hide ParseExpr, Opens, ExprTokens;
    ExprPays(ts);
    ExprPrints(ParseExpr(ts).value, 0, ParseExpr(ts).rest);
  }

  lemma FewestInPrograms(ts: seq<Token>)
    requires ParseProgram(ts).Ok?
    ensures Opens(ProgramTokens(ParseProgram(ts).value)) <= Opens(ts)
  {
    hide ParseStmts, StmtsTokens;
    StmtsPay(ts, false);
    StmtsPrint(ParseProgram(ts).value, [Symbol(TEof)]);
    assert Opens([Symbol(TEof)]) == 0 + Opens([Symbol(TEof)][1..]);
  }
}
