/** Every form is read as what it means; so parsing undoes printing. */
module RoundTrip {
  import opened Ast
  import opened Tokens
  import opened Grammar
  import opened Printer
  import opened Forms

  // ----- single tokens -----

  // The operators, from the loosest to the tightest, as they are written.
  const LEVELS: seq<map<string, BinOp>> := [
    map["<" := Lt, ">" := Gt, "<=" := Le, ">=" := Ge, "==" := Eq, "===" := EqS, "!=" := Ne, "!==" := NeS],
    map["+" := Plus, "-" := Minus],
    map["*" := Times, "/" := Divide, "%" := Modulus]]

  // Each is read at its own level only, and as that operator.
  lemma OperatorsRead(op: BinOp)
    ensures var written := LEVELS[OperatorLevel(op) - 1];
      OperatorText(op) in written && written[OperatorText(op)] == op
    ensures forall level :: 1 <= level <= 3 ==> (IsOperatorAt(level, OperatorToken(op)) <==> level == OperatorLevel(op))
    ensures IsOperatorAt(OperatorLevel(op), OperatorToken(op)) && OperatorOf(OperatorToken(op)) == op
  {
  }

  lemma Taken(t: Token, k: seq<Token>)
    requires t.typ != TEof
    ensures Expect([t] + k, t.typ) == Ok(t, k)
    ensures ([t] + k)[0] == t && ([t] + k)[1..] == k
  {
  }

  // ----- what may follow an operand -----

  // k does not continue the form at a level above the given one, nor as a call.
  predicate Tight(level: nat, f: Form, k: seq<Token>) {
    && k != [] && (k[0].typ == TParenOpen ==> !EndsInName(f))
    && forall l :: level < l <= 3 ==> !IsOperatorAt(l, k[0])
  }

  // k cannot extend the form.
  predicate Stops(f: Form, k: seq<Token>) { Tight(0, f, k) && k[0].typ != TAssign }

  lemma EndsAt(typ: TokenType, f: Form, k: seq<Token>)
    requires At(k, typ) && typ != TOperator && typ != TParenOpen && typ != TAssign
    ensures Stops(f, k)
  {
  }

  lemma SymbolsEnd(typ: TokenType, f: Form, k: seq<Token>)
    requires typ != TOperator && typ != TParenOpen && typ != TAssign
    ensures Stops(f, [Symbol(typ)] + k)
  {
  }

  // ----- the first two tokens of a form -----

  predicate Starts(typ: TokenType) { typ in {TInt, TString, TIdent, TParenOpen, TArray} }

  lemma {:induction false} FirstToken(f: Form, k: seq<Token>)
    requires Proper(f)
    ensures var ts := FormTokens(f, k);
      && |ts| > |k| && ts[0].typ == FirstOf(f) && Starts(FirstOf(f))
      && (ts[0].typ == TArray ==> f.Items?) && (|ts| > 1 || k == [])
    decreases f
  {
    match f
    case Grouped(inner) =>
      FirstToken(inner, [Symbol(TParenClose)] + k);
    case Infix(op, left, right) =>
      FirstToken(right, k);
      FirstToken(left, [OperatorToken(op)] + FormTokens(right, k));
    case Store(_, stored) =>
      FirstToken(stored, k);
    case Apply(_, args) =>
      ArgsGrow(args, [Symbol(TParenClose)] + k);
    case Items(elems, comma) =>
      ElemsGrow(elems, comma, [Symbol(TSquareClose)] + k);
    case _ =>
  }

  predicate ProperArgs(args: seq<Arg>) {
    && (forall i :: 0 <= i < |args| ==> Proper(args[i].form))
    && forall i :: 0 <= i < |args| - 1 ==> Separate(args[i], args[i + 1].form)
  }

  lemma ArgsTail(args: seq<Arg>)
    requires ProperArgs(args) && args != []
    ensures Proper(args[0].form) && ProperArgs(args[1..])
    ensures |args| > 1 ==> Separate(args[0], args[1].form) && args[1..][0] == args[1]
  {
    hide Proper, Separate;
    forall i | 0 <= i < |args[1..]| - 1
      ensures Separate(args[1..][i], args[1..][i + 1].form)
    {
      assert args[1..][i] == args[i + 1] && args[1..][i + 1] == args[i + 2];
    }
  }

  lemma {:induction false} ArgsGrow(args: seq<Arg>, k: seq<Token>)
    requires ProperArgs(args)
    ensures |ArgsTokens(args, k)| >= |k|
    ensures args != [] ==> |ArgsTokens(args, k)| > |k| && ArgsTokens(args, k)[0].typ == FirstOf(args[0].form)
    decreases args
  {
    hide Proper;
    if args != [] {
      ArgsTail(args);
      ArgsGrow(args[1..], k);
      ArgGrows(args[0], ArgsTokens(args[1..], k));
    }
  }

  lemma {:induction false} ArgGrows(a: Arg, k: seq<Token>)
    requires Proper(a.form)
    ensures |ArgTokens(a, k)| > |k| && ArgTokens(a, k)[0].typ == FirstOf(a.form)
    decreases a
  {
    hide Proper;
    FirstToken(a.form, Comma(a.comma, k));
  }

  lemma {:induction false} ElemsGrow(elems: seq<Form>, comma: bool, k: seq<Token>)
    requires forall i :: 0 <= i < |elems| ==> Proper(elems[i])
    ensures |ElemsTokens(elems, comma, k)| >= |k|
    ensures elems != [] ==> |ElemsTokens(elems, comma, k)| > |k| && Starts(ElemsTokens(elems, comma, k)[0].typ)
    decreases elems
  {
    hide Proper;
    if |elems| == 1 {
      FirstToken(elems[0], Comma(comma, k));
    } else if |elems| > 1 {
      ElemsGrow(elems[1..], comma, k);
      FirstToken(elems[0], [Symbol(TComma)] + ElemsTokens(elems[1..], comma, k));
    }
  }

  // Only an assignment has an assignment sign in second place.
  lemma {:induction false} SecondToken(f: Form, k: seq<Token>)
    requires Proper(f) && k != [] && k[0].typ != TAssign && !f.Store?
    ensures var ts := FormTokens(f, k);
      |ts| > 1 && ts[1].typ != TAssign
    decreases f
  {
    match f
    case Grouped(inner) =>
      FirstToken(inner, [Symbol(TParenClose)] + k);
    case Infix(op, left, right) =>
      SecondToken(left, [OperatorToken(op)] + FormTokens(right, k));
    case _ =>
  }

  // ----- expressions -----

  lemma SingleToken(t: Token, k: seq<Token>)
    requires IsWordToken(t) && k != [] && (k[0].typ == TParenOpen ==> t.typ != TIdent)
    ensures ParseCall([t] + k) == Ok(Meaning(Word(t)), k)
  {
    hide ParseExpr, ParseArgs, Progress;
    assert ([t] + k)[1..] == k;
  }

  lemma GroupedStep(e: Expr, ts: seq<Token>, k: seq<Token>)
    requires ParseExpr(ts) == Ok(e, [Symbol(TParenClose)] + k)
    ensures ParseCall([Symbol(TParenOpen)] + ts) == Ok(e, k)
  {
    hide ParseExpr, ParseArgs, Progress, Expect, Symbol;
    Taken(Symbol(TParenOpen), ts);
    Taken(Symbol(TParenClose), k);
  }

  lemma CallStep(callee: string, args: seq<Expr>, ts: seq<Token>, k: seq<Token>)
    requires ts != [] && k != [] && ParseArgs(ts) == Ok(args, [Symbol(TParenClose)] + k)
    ensures ParseCall([Name(callee)] + ([Symbol(TParenOpen)] + ts)) == Ok(Call(callee, args), k)
  {
    hide ParseExpr, ParseArgs, Progress, LoopProgress, Expect, Symbol;
    assert ([Name(callee)] + ([Symbol(TParenOpen)] + ts))[2..] == ts;
    Taken(Symbol(TParenClose), k);
  }

  function ArgMeanings(args: seq<Arg>): seq<Expr>
    requires ProperArgs(args)
  {
    seq(|args|, i requires 0 <= i < |args| => Meaning(args[i].form))
  }

  // Operands at the innermost level.
  lemma {:induction false} CallReadBack(f: Form, k: seq<Token>)
    requires Proper(f) && FormLevel(f) == 4 && Tight(3, f, k)
    ensures ParseCall(FormTokens(f, k)) == Ok(Meaning(f), k)
    decreases f, 0, 0
  {
    hide ParseCall, ParseExpr, ParseArgs, IsOperatorAt;
    match f
    case Word(token) =>
      SingleToken(token, k);
    case Grouped(inner) =>
      SymbolsEnd(TParenClose, inner, k);
      ExprReadBack(inner, [Symbol(TParenClose)] + k);
      GroupedStep(Meaning(inner), FormTokens(inner, [Symbol(TParenClose)] + k), k);
    case Apply(callee, args) =>
      ArgsGrow(args, [Symbol(TParenClose)] + k);
      ArgsReadBack(args, [Symbol(TParenClose)] + k);
      CallStep(callee, ArgMeanings(args), ArgsTokens(args, [Symbol(TParenClose)] + k), k);
  }

  // An operand at a level is one of the next level, or a chain of that level.
  lemma {:induction false} BinaryReadBack(f: Form, level: nat, k: seq<Token>)
    requires Proper(f) && 1 <= level <= 3 && FormLevel(f) >= level && Tight(level, f, k)
    ensures ParseBinary(level, FormTokens(f, k)) == ParseChain(level, Meaning(f), k)
    decreases f, 4 - level, 0
  {
    hide IsOperatorAt, OperatorOf, OperatorText, Progress, LoopProgress;
    if FormLevel(f) == level {
      var tok := OperatorToken(f.op);
      OperatorsRead(f.op);
      var k2 := FormTokens(f.right, k);
      var k1 := [tok] + k2;
      BinaryReadBack(f.left, level, k1);
      OperandReadBack(f.right, level, k);
      assert k1[1..] == k2;
      assert ParseChain(level, Meaning(f.left), k1) == ParseChain(level, Meaning(f), k);
    } else {
      OperandReadBack(f, level, k);
    }
  }

  lemma {:induction false} OperandReadBack(f: Form, level: nat, k: seq<Token>)
    requires Proper(f) && 1 <= level <= 3 && FormLevel(f) >= level + 1 && Tight(level, f, k)
    ensures ParseOperand(level, FormTokens(f, k)) == Ok(Meaning(f), k)
    decreases f, 3 - level, 1
  {
    hide IsOperatorAt, ParseCall;
    if level == 3 {
      CallReadBack(f, k);
    } else {
      BinaryReadBack(f, level + 1, k);
    }
  }

  // Parsing the tokens of a form, followed by any token that cannot extend it, gives its meaning
  // and stops right behind it.
  lemma {:induction false} ExprReadBack(f: Form, k: seq<Token>)
    requires Proper(f) && Stops(f, k)
    ensures ParseExpr(FormTokens(f, k)) == Ok(Meaning(f), k)
    decreases f, 10
  {
    hide IsOperatorAt, ParseBinary, ParseElems;
    match f
    case Store(target, stored) =>
      hide ParseExpr, ParseArray;
      ExprReadBack(stored, k);
      AssignStep(target, Meaning(stored), FormTokens(stored, k), k);
    case Items(elems, comma) =>
      hide ParseExpr;
      ElemsReadBack(elems, comma, [Symbol(TSquareClose)] + k);
      ArrayStep(Meaning(f).elems, ElemsTokens(elems, comma, [Symbol(TSquareClose)] + k), k);
    case _ =>
      FirstToken(f, k);
      SecondToken(f, k);
      BinaryReadBack(f, 1, k);
  }

  lemma AssignStep(target: string, value: Expr, ts: seq<Token>, k: seq<Token>)
    requires k != [] && ParseExpr(ts) == Ok(value, k)
    ensures ParseExpr([Name(target)] + ([Symbol(TAssign)] + ts)) == Ok(Assign(target, value), k)
  {
    hide ParseArray, Expect, Progress, Symbol;
    Taken(Name(target), [Symbol(TAssign)] + ts);
    Taken(Symbol(TAssign), ts);
  }

  lemma ArrayStep(elems: seq<Expr>, ts: seq<Token>, k: seq<Token>)
    requires ParseElems(ts) == Ok(elems, [Symbol(TSquareClose)] + k)
    ensures ParseExpr([Symbol(TArray)] + ([Symbol(TSquareOpen)] + ts)) == Ok(ArrayLit(elems), k)
  {
    hide ParseElems, ParseBinary, Expect, Progress, LoopProgress;
    Taken(Symbol(TArray), [Symbol(TSquareOpen)] + ts);
    Taken(Symbol(TSquareOpen), ts);
    Taken(Symbol(TSquareClose), k);
  }

  // The argument can be followed by the next one.
  lemma NextArgument(a: Arg, next: Form, k: seq<Token>)
    requires Proper(a.form) && Separate(a, next) && k != [] && k[0].typ == FirstOf(next) && Starts(FirstOf(next))
    ensures Stops(a.form, Comma(a.comma, k))
  {
  }

  lemma {:induction false} ArgsReadBack(args: seq<Arg>, k: seq<Token>)
    requires ProperArgs(args) && At(k, TParenClose)
    ensures ParseArgs(ArgsTokens(args, k)) == Ok(ArgMeanings(args), k)
    decreases args, 11
  {
    hide ParseExpr, IsOperatorAt, FormTokens, Symbol, Progress, LoopProgress, Proper, Meaning, Stops, ProperArgs;
    hide Separate;
    if args != [] {
      var a, k1 := args[0], ArgsTokens(args[1..], k);
      ArgsTail(args);
      ArgsGrow(args[1..], k);
      ArgsReadBack(args[1..], k);
      if |args| > 1 {
        ArgsTail(args[1..]);
        FirstToken(args[1].form, []);
        NextArgument(a, args[1].form, k1);
      } else {
        LastArgument(a, k);
      }
      ArgReadBack(a, k1);
      ArgGrows(a, k1);
      FirstToken(a.form, Comma(a.comma, k1));
      ArgStep(ArgTokens(a, k1), Meaning(a.form), a.comma, k1, ArgMeanings(args[1..]), k);
      assert ArgMeanings(args) == [Meaning(a.form)] + ArgMeanings(args[1..]);
    }
  }

  lemma LastArgument(a: Arg, k: seq<Token>)
    requires At(k, TParenClose)
    ensures Stops(a.form, Comma(a.comma, k))
  {
  }

  lemma {:induction false} ArgReadBack(a: Arg, k: seq<Token>)
    requires Proper(a.form) && Stops(a.form, Comma(a.comma, k))
    ensures ParseExpr(ArgTokens(a, k)) == Ok(Meaning(a.form), Comma(a.comma, k))
    decreases a, 11
  {
    hide ParseExpr, Proper, Stops;
    ExprReadBack(a.form, Comma(a.comma, k));
  }

  lemma ArgStep(ts: seq<Token>, e: Expr, comma: bool, k1: seq<Token>, es: seq<Expr>, k: seq<Token>)
    requires ts != [] && Starts(ts[0].typ) && k1 != [] && (!comma ==> k1[0].typ != TComma)
    requires ParseExpr(ts) == Ok(e, Comma(comma, k1)) && ParseArgs(k1) == Ok(es, k)
    ensures ParseArgs(ts) == Ok([e] + es, k)
  {
    hide ParseExpr, Progress, LoopProgress;
    assert comma ==> Comma(comma, k1)[1..] == k1;
  }

  lemma {:induction false} ElemsReadBack(elems: seq<Form>, comma: bool, k: seq<Token>)
    requires ProperAll(elems) && (comma ==> elems != []) && At(k, TSquareClose)
    ensures ParseElems(ElemsTokens(elems, comma, k)) == Ok(Meanings(elems), k)
    decreases elems, 11
  {
    hide ParseExpr, IsOperatorAt, FormTokens, Symbol, Progress, LoopProgress, Proper, Meaning, Stops;
    if elems == [] {
      LastElement(Word(Name("")), false, k);
    } else if |elems| == 1 {
      FirstToken(elems[0], Comma(comma, k));
      LastElement(elems[0], comma, k);
      ExprReadBack(elems[0], Comma(comma, k));
      ElemStep(FormTokens(elems[0], Comma(comma, k)), Meaning(elems[0]), comma, k, [], k);
      assert Meanings(elems) == [Meaning(elems[0])] + [];
    } else {
      var k1 := ElemsTokens(elems[1..], comma, k);
      FirstToken(elems[0], [Symbol(TComma)] + k1);
      SymbolsEnd(TComma, elems[0], k1);
      ExprReadBack(elems[0], [Symbol(TComma)] + k1);
      ElemsReadBack(elems[1..], comma, k);
      ElemsGrow(elems[1..], comma, k);
      ElemStep(FormTokens(elems[0], [Symbol(TComma)] + k1), Meaning(elems[0]), true, k1, Meanings(elems[1..]), k);
      assert Meanings(elems) == [Meaning(elems[0])] + Meanings(elems[1..]);
    }
  }

  lemma LastElement(f: Form, comma: bool, k: seq<Token>)
    requires At(k, TSquareClose)
    ensures Stops(f, Comma(comma, k)) && ParseElems(k) == Ok([], k)
  {
    hide ParseExpr;
  }

  lemma ElemStep(ts: seq<Token>, e: Expr, comma: bool, k1: seq<Token>, es: seq<Expr>, k: seq<Token>)
    requires ts != [] && Starts(ts[0].typ) && k1 != [] && ParseExpr(ts) == Ok(e, Comma(comma, k1))
    requires if comma then ParseElems(k1) == Ok(es, k) else At(k1, TSquareClose) && es == [] && k1 == k
    ensures ParseElems(ts) == Ok([e] + es, k)
  {
    hide ParseExpr, Progress, LoopProgress, Expect, Symbol;
    assert [e] + [] == [e];
    if comma {
      Taken(Symbol(TComma), k1);
    }
  }

  // ----- statements -----

  // What may follow a statement: no further semicolon, and no else that it would take.
  predicate Follows(s: StmtForm, k: seq<Token>) {
    k != [] && k[0].typ != TSemicolon && (OpenForm(s) ==> k[0].typ != TElse)
  }

  predicate StartsStmt(typ: TokenType) {
    Starts(typ) || typ in {TVar, TConst, TFunction, TBraceOpen, TIf, TLoop}
  }

  lemma FirstOfStmtTokens(s: StmtForm, k: seq<Token>)
    requires ProperStmt(s)
    ensures var ts := StmtFormTokens(s, k);
      ts != [] && ts[0].typ == FirstOfStmtForm(s) && StartsStmt(ts[0].typ)
  {
    hide FormTokens, Proper, Semicolons;
    if s.ExprForm? {
      FirstToken(s.e, [Symbol(TSemicolon)] + Semicolons(s.extra, k));
    }
  }

  lemma {:induction false} SemicolonsSkipped(n: nat, k: seq<Token>)
    requires k != [] && k[0].typ != TSemicolon
    ensures SkipSemicolons(Semicolons(n, k)) == Ok((), k)
  {
    if n > 0 {
      SemicolonsSkipped(n - 1, k);
      assert Semicolons(n, k)[1..] == Semicolons(n - 1, k);
    }
  }

  // A statement without its further semicolons.
  lemma BareStep(ts: seq<Token>, s: Stmt, n: nat, k: seq<Token>)
    requires ParseBareStmt(ts) == Ok(s, Semicolons(n, k)) && k != [] && k[0].typ != TSemicolon
    ensures ParseStmt(ts) == Ok(s, k)
  {
    hide ParseBareStmt;
    SemicolonsSkipped(n, k);
  }

  lemma ExprStmtStep(ts: seq<Token>, e: Expr, k: seq<Token>)
    requires ts != [] && Starts(ts[0].typ) && ParseExpr(ts) == Ok(e, [Symbol(TSemicolon)] + k)
    ensures ParseBareStmt(ts) == Ok(ExprStmt(e), k)
  {
    hide ParseExpr;
    assert ([Symbol(TSemicolon)] + k)[1..] == k;
  }

  lemma WordStep(ts: seq<Token>, s: Stmt, k: seq<Token>)
    requires || (At(ts, TFunction) && ParseFnDecl(ts) == Ok(s, k))
             || (At(ts, TBraceOpen) && ParseBlock(ts) == Ok(s, k))
             || (At(ts, TIf) && ParseIf(ts) == Ok(s, k))
             || (At(ts, TLoop) && ParseLoop(ts) == Ok(s, k))
    ensures ParseBareStmt(ts) == Ok(s, k)
  {
    hide ParseFnDecl, ParseBlock, ParseIf, ParseLoop, Progress;
  }

  lemma DeclReadBack(s: StmtForm, k: seq<Token>)
    requires s.DeclForm? && ProperStmt(s)
    ensures ParseBareStmt(StmtFormTokens(s, k)) == Ok(StmtMeaning(s), Semicolons(s.extra, k))
  {
    hide ParseExpr, FormTokens, Expect, Progress, Symbol, ParseVarDecl, Proper, Meaning;
    var k1 := Semicolons(s.extra, k);
    Taken(Symbol(TSemicolon), k1);
    DeclStep(s, [Symbol(TSemicolon)] + k1);
    assert StmtFormTokens(s, k) == DeclTokens(s, [Symbol(TSemicolon)] + k1);
  }

  // A declaration in front of k1.
  function DeclTokens(s: StmtForm, k1: seq<Token>): seq<Token>
    requires s.DeclForm?
  {
    [Symbol(if s.isConst then TConst else TVar)]
    + ([Name(s.name)] + if s.init.None? then k1 else [Symbol(TAssign)] + FormTokens(s.init.value, k1))
  }

  lemma DeclStep(s: StmtForm, k1: seq<Token>)
    requires s.DeclForm? && ProperStmt(s) && At(k1, TSemicolon)
    ensures ParseVarDecl(DeclTokens(s, k1)) == Ok(StmtMeaning(s), k1)
  {
    hide ParseExpr, FormTokens, Expect, Progress, Symbol, Proper, Meaning, Stops;
    var word := Symbol(if s.isConst then TConst else TVar);
    if s.init.None? {
      Taken(word, [Name(s.name)] + k1);
      Taken(Name(s.name), k1);
    } else {
      var k2 := FormTokens(s.init.value, k1);
      EndsAt(TSemicolon, s.init.value, k1);
      ExprReadBack(s.init.value, k1);
      Taken(word, [Name(s.name)] + ([Symbol(TAssign)] + k2));
      Taken(Name(s.name), [Symbol(TAssign)] + k2);
      Taken(Symbol(TAssign), k2);
    }
  }

  lemma {:induction false} ParamsReadBack(params: seq<string>, comma: bool, k: seq<Token>)
    requires At(k, TParenClose) && (comma ==> params != [])
    ensures ParseParams(ParamTokens(params, comma, k)) == Ok(params, k)
  {
    hide Symbol, ParseParams;
    if params == [] {
      NoParams(k);
    } else if |params| == 1 {
      LastParam(params[0], comma, k);
      assert [params[0]] == params;
    } else {
      ParamsReadBack(params[1..], comma, k);
      ParamStep(params[0], params[1..], ParamTokens(params[1..], comma, k), k);
      assert [params[0]] + params[1..] == params;
    }
  }

  lemma NoParams(k: seq<Token>)
    requires At(k, TParenClose)
    ensures ParseParams(k) == Ok([], k)
  {
  }

  lemma LastParam(name: string, comma: bool, k: seq<Token>)
    requires At(k, TParenClose)
    ensures ParseParams([Name(name)] + Comma(comma, k)) == Ok([name], k)
  {
    hide Expect, LoopProgress, Symbol;
    Taken(Name(name), Comma(comma, k));
    if comma {
      Taken(Symbol(TComma), k);
      NoParams(k);
      assert [name] + [] == [name];
    }
  }

  lemma ParamStep(name: string, names: seq<string>, ts: seq<Token>, k: seq<Token>)
    requires ParseParams(ts) == Ok(names, k)
    ensures ParseParams([Name(name)] + ([Symbol(TComma)] + ts)) == Ok([name] + names, k)
  {
    hide Expect, LoopProgress, Symbol;
    Taken(Name(name), [Symbol(TComma)] + ts);
    Taken(Symbol(TComma), ts);
  }

  lemma FnHeadStep(name: string, params: seq<string>, comma: bool, k: seq<Token>)
    requires comma ==> params != []
    ensures var ts := ParamTokens(params, comma, [Symbol(TParenClose)] + k);
      ParseFnHead([Symbol(TFunction)] + ([Name(name)] + ([Symbol(TParenOpen)] + ts))) == Ok((name, params), k)
  {
    hide ParseParams, ParamTokens, Expect, Progress, LoopProgress, Symbol;
    var k1 := [Symbol(TParenClose)] + k;
    var ts := ParamTokens(params, comma, k1);
    Taken(Symbol(TParenClose), k);
    ParamsReadBack(params, comma, k1);
    Taken(Symbol(TParenOpen), ts);
    Taken(Name(name), [Symbol(TParenOpen)] + ts);
    Taken(Symbol(TFunction), [Name(name)] + ([Symbol(TParenOpen)] + ts));
  }

  lemma FnStep(name: string, params: seq<string>, comma: bool, body: seq<Stmt>, ts: seq<Token>, k: seq<Token>)
    requires (comma ==> params != []) && ParseStmts(ts, true) == Ok(body, [Symbol(TBraceClose)] + k)
    ensures var k2 := [Symbol(TBraceOpen)] + ts;
      var k3 := ParamTokens(params, comma, [Symbol(TParenClose)] + k2);
      ParseFnDecl([Symbol(TFunction)] + ([Name(name)] + ([Symbol(TParenOpen)] + k3))) == Ok(FnDecl(name, params, body), k)
  {
    hide ParseStmts, ParseFnHead, ParamTokens, Expect, Progress, LoopProgress, Symbol;
    FnHeadStep(name, params, comma, [Symbol(TBraceOpen)] + ts);
    Taken(Symbol(TBraceOpen), ts);
    Taken(Symbol(TBraceClose), k);
  }

  lemma BlockStep(stmts: seq<Stmt>, ts: seq<Token>, k: seq<Token>)
    requires ParseStmts(ts, true) == Ok(stmts, [Symbol(TBraceClose)] + k)
    ensures ParseBlock([Symbol(TBraceOpen)] + ts) == Ok(Block(stmts), k)
  {
    hide ParseStmts, Expect, Progress, LoopProgress, Symbol;
    Taken(Symbol(TBraceOpen), ts);
    Taken(Symbol(TBraceClose), k);
  }

  lemma {:induction false} IfReadBack(s: StmtForm, k: seq<Token>)
    requires s.IfForm? && ProperStmt(s) && Follows(s, k)
    ensures ParseIf(StmtFormTokens(s, k)) == Ok(StmtMeaning(s), k)
    decreases s, 0
  {
    hide ParseExpr, ParseStmt, FormTokens, Expect, Progress, Symbol, Proper, Meaning, Stops;
    var k1 := if s.els.None? then k else [Symbol(TElse)] + StmtFormTokens(s.els.value, k);
    var k2 := StmtFormTokens(s.thn, k1);
    var k3 := [Symbol(TParenClose)] + k2;
    var k4 := FormTokens(s.cond, k3);
    Taken(Symbol(TIf), [Symbol(TParenOpen)] + k4);
    Taken(Symbol(TParenOpen), k4);
    Taken(Symbol(TParenClose), k2);
    SymbolsEnd(TParenClose, s.cond, k2);
    ExprReadBack(s.cond, k3);
    StmtReadBack(s.thn, k1);
    if s.els.Some? {
      Taken(Symbol(TElse), StmtFormTokens(s.els.value, k));
      StmtReadBack(s.els.value, k);
    }
  }

  lemma AsNameReadBack(asName: Option<string>, k: seq<Token>)
    ensures var k1 := [Symbol(TParenClose)] + k;
      ParseAsName(if asName.None? then k1 else [Symbol(TAs)] + ([Name(asName.value)] + k1)) == Ok(asName, k1)
  {
    hide Expect, Symbol, Progress;
    var k1 := [Symbol(TParenClose)] + k;
    if asName.Some? {
      Taken(Symbol(TAs), [Name(asName.value)] + k1);
      Taken(Name(asName.value), k1);
    }
  }

  // The head of a loop, with or without a count, `as name` and a name behind it.
  lemma LoopHeadReadBack(count: Option<Count>, named: Option<string>, k: seq<Token>)
    requires (count.Some? ==> Proper(count.value.form)) && k != []
    requires named.None? && count.None? ==> k[0].typ != TParenOpen
    ensures ParseLoopCount(CountTokens(count, named, k))
         == Ok((if count.None? then None else Some(Meaning(count.value.form)), if count.None? then None else count.value.asName),
               if named.None? then k else [Name(named.value)] + k)
  {
    hide ParseExpr, FormTokens, Expect, Symbol, ParseAsName, Proper, Meaning, Progress, LoopProgress, Stops;
    var k1 := if named.None? then k else [Name(named.value)] + k;
    if count.Some? {
      var asName, k2 := count.value.asName, [Symbol(TParenClose)] + k1;
      var k3 := if asName.None? then k2 else [Symbol(TAs)] + ([Name(asName.value)] + k2);
      AsNameReadBack(asName, k1);
      SymbolsEnd(if asName.None? then TParenClose else TAs, count.value.form, if asName.None? then k1 else [Name(asName.value)] + k2);
      ExprReadBack(count.value.form, k3);
      Taken(Symbol(TParenOpen), FormTokens(count.value.form, k3));
      Taken(Symbol(TParenClose), k1);
    }
  }

  lemma LoopStep(count: Option<Count>, named: Option<string>, body: Stmt, ts: seq<Token>, k: seq<Token>)
    requires (count.Some? ==> Proper(count.value.form)) && ts != []
    requires named.None? ==> ts[0].typ != TIdent && (count.None? ==> ts[0].typ != TParenOpen)
    requires ParseStmt(ts) == Ok(body, k)
    ensures ParseLoop([Symbol(TLoop)] + CountTokens(count, named, ts))
         == Ok(Loop(if count.None? then None else Some(Meaning(count.value.form)), Variable(count, named), body), k)
  {
    hide ParseStmt, ParseLoopCount, CountTokens, Proper, Meaning;
    LoopHeadReadBack(count, named, ts);
    assert ([Symbol(TLoop)] + CountTokens(count, named, ts))[1..] == CountTokens(count, named, ts);
    if named.Some? {
      assert ([Name(named.value)] + ts)[1..] == ts;
    }
  }

  // Every statement form, followed by a token that it does not take, is read as what it means.
  lemma {:induction false} StmtReadBack(s: StmtForm, k: seq<Token>)
    requires ProperStmt(s) && Follows(s, k)
    ensures ParseStmt(StmtFormTokens(s, k)) == Ok(StmtMeaning(s), k)
    decreases s, 1
  {
    hide ParseStmt, ParseBareStmt, ParseExpr, FormTokens, ParseFnDecl, ParseBlock, ParseIf, ParseLoop, ParseVarDecl;
    hide StmtFormsTokens, CountTokens, Symbol, Progress, Proper, Meaning, Stops;
    var ts := StmtFormTokens(s, k);
    FirstOfStmtTokens(s, k);
    match s
    case ExprForm(e, extra) =>
      var k1 := Semicolons(extra, k);
      SymbolsEnd(TSemicolon, e, k1);
      FirstToken(e, [Symbol(TSemicolon)] + k1);
      ExprReadBack(e, [Symbol(TSemicolon)] + k1);
      ExprStmtStep(ts, Meaning(e), k1);
      BareStep(ts, StmtMeaning(s), extra, k);
    case DeclForm(_, _, _, extra) =>
      DeclReadBack(s, k);
      BareStep(ts, StmtMeaning(s), extra, k);
    case FnForm(name, params, comma, body, extra) =>
      var k1 := [Symbol(TBraceClose)] + Semicolons(extra, k);
      StmtsReadBack(body, k1, true);
      FnStep(name, params, comma, StmtMeanings(body), StmtFormsTokens(body, k1), Semicolons(extra, k));
      WordStep(ts, StmtMeaning(s), Semicolons(extra, k));
      BareStep(ts, StmtMeaning(s), extra, k);
    case BlockForm(stmts, extra) =>
      var k1 := [Symbol(TBraceClose)] + Semicolons(extra, k);
      StmtsReadBack(stmts, k1, true);
      BlockStep(StmtMeanings(stmts), StmtFormsTokens(stmts, k1), Semicolons(extra, k));
      WordStep(ts, StmtMeaning(s), Semicolons(extra, k));
      BareStep(ts, StmtMeaning(s), extra, k);
    case IfForm(_, _, _) =>
      IfReadBack(s, k);
      WordStep(ts, StmtMeaning(s), k);
      BareStep(ts, StmtMeaning(s), 0, k);
    case LoopForm(count, named, body) =>
      StmtReadBack(body, k);
      FirstOfStmtTokens(body, k);
      LoopStep(count, named, StmtMeaning(body), StmtFormTokens(body, k), k);
      WordStep(ts, StmtMeaning(s), k);
      BareStep(ts, StmtMeaning(s), 0, k);
  }

  lemma {:induction false} StmtsReadBack(ss: seq<StmtForm>, k: seq<Token>, inBraces: bool)
    requires ProperStmts(ss)
    requires At(k, TEof) || (inBraces && At(k, TBraceClose))
    ensures ParseStmts(StmtFormsTokens(ss, k), inBraces) == Ok(StmtMeanings(ss), k)
    decreases ss, 3
  {
    hide ParseStmt, StmtFormTokens, ProperStmt, StmtMeaning;
    if ss != [] {
      var k1 := StmtFormsTokens(ss[1..], k);
      FirstOfStmtTokens(ss[0], k1);
      StmtsReadBack(ss[1..], k, inBraces);
      if |ss| > 1 {
        FirstOfStmtTokens(ss[1], StmtFormsTokens(ss[1..][1..], k));
      }
      StmtReadBack(ss[0], k1);
      assert [StmtMeaning(ss[0])] + StmtMeanings(ss[1..]) == StmtMeanings(ss);
    } else {
      assert StmtMeanings(ss) == [];
    }
  }

  // Every form of a program, up to the end of the file, is read as what it means.
  lemma FormsReadBack(ss: seq<StmtForm>, rest: seq<Token>)
    requires ProperStmts(ss) && At(rest, TEof)
    ensures ParseProgram(StmtFormsTokens(ss, rest)) == Ok(StmtMeanings(ss), rest)
  {
    StmtsReadBack(ss, rest, false);
  }
}
