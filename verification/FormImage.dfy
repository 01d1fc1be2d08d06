/** Whatever the parser accepts is a form of what it returns: the forms are the whole language. */
module FormImage {
  import opened Ast
  import opened Tokens
  import opened Grammar
  import opened Printer
  import opened Forms
  import opened RoundTrip

  // A token has the text of its type, as far as that decides it.
  predicate Regular(t: Token) {
    match t.typ
    case TIdent => true
    case TInt => true
    case TString => true
    case TOperator => t.text in {"+", "-", "/", "*", "%", "<", ">", "<=", ">=", "==", "===", "!=", "!=="}
    case _ => t == Symbol(t.typ)
  }

  predicate Regulars(ts: seq<Token>) { forall i :: 0 <= i < |ts| ==> Regular(ts[i]) }

  lemma Tail(ts: seq<Token>)
    requires Regulars(ts)
    ensures ts != [] ==> Regular(ts[0]) && Regulars(ts[1..]) && [ts[0]] + ts[1..] == ts
  {
    hide Regular;
  }

  lemma SymbolAt(ts: seq<Token>, typ: TokenType)
    requires Regulars(ts) && At(ts, typ) && typ !in {TIdent, TInt, TString, TOperator}
    ensures [Symbol(typ)] + ts[1..] == ts && Regulars(ts[1..])
  {
    Tail(ts);
  }

  lemma NameAt(ts: seq<Token>)
    requires Regulars(ts) && At(ts, TIdent)
    ensures [Name(ts[0].text)] + ts[1..] == ts && Regulars(ts[1..])
  {
    hide Regular;
    Tail(ts);
  }

  lemma OperatorAt(level: nat, ts: seq<Token>)
    requires Regulars(ts) && ts != [] && IsOperatorAt(level, ts[0]) && 1 <= level <= 3
    ensures OperatorLevel(OperatorOf(ts[0])) == level && [OperatorToken(OperatorOf(ts[0]))] + ts[1..] == ts
    ensures Regulars(ts[1..])
  {
    Tail(ts);
    OperatorIs(ts[0], level);
  }

  lemma OperatorIs(t: Token, level: nat)
    requires Regular(t) && IsOperatorAt(level, t) && 1 <= level <= 3
    ensures OperatorLevel(OperatorOf(t)) == level && OperatorToken(OperatorOf(t)) == t
  {
  }

  // ----- expressions -----

  // The parser stopped at rest: a parenthesis there did not make a call.
  predicate NotCalled(f: Form, rest: seq<Token>) { |rest| > 1 && rest[0].typ == TParenOpen ==> !EndsInName(f) }

  // e was read from the front of ts as the form f.
  ghost predicate ReadAs(f: Form, ts: seq<Token>, e: Expr, rest: seq<Token>) {
    Proper(f) && Meaning(f) == e && FormTokens(f, rest) == ts && Regulars(rest) && NotCalled(f, rest)
  }

  lemma {:induction false} ExprIsForm(ts: seq<Token>) returns (f: Form)
    requires Regulars(ts) && ParseExpr(ts).Ok?
    ensures ReadAs(f, ts, ParseExpr(ts).value, ParseExpr(ts).rest)
    decreases |ts|, 8
  {
    hide ParseArray, Progress, Regulars, Symbol;
    if !AtEof(ts) && |ts| > 1 && ts[1].typ == TAssign {
      NameAt(ts);
      SymbolAt(ts[1..], TAssign);
      var stored := ExprIsForm(ts[1..][1..]);
      f := Store(ts[0].text, stored);
    } else {
      f := ArrayIsForm(ts);
    }
  }

  lemma {:induction false} ArrayIsForm(ts: seq<Token>) returns (f: Form)
    requires Regulars(ts) && ParseArray(ts).Ok?
    ensures ReadAs(f, ts, ParseArray(ts).value, ParseArray(ts).rest)
    decreases |ts|, 7
  {
    hide ParseBinary, ParseElems, Progress, LoopProgress, Regulars, Symbol, ElemsTokens, ReadAs, ProperAll, Meanings;
    if ts[0].typ != TArray {
      f := BinaryIsForm(1, ts);
    } else {
      SymbolAt(ts, TArray);
      SymbolAt(ts[1..], TSquareOpen);
      var elems, comma := ElemsAreForms(ts[1..][1..]);
      var rest := ParseElems(ts[1..][1..]).rest;
      SymbolAt(rest, TSquareClose);
      f := Items(elems, comma);
      ItemsRead(elems, comma, ts[1..][1..], rest[1..]);
    }
  }

  lemma ItemsRead(elems: seq<Form>, comma: bool, ts: seq<Token>, rest: seq<Token>)
    requires ProperAll(elems) && (comma ==> elems != []) && Regulars(rest)
    requires ElemsTokens(elems, comma, [Symbol(TSquareClose)] + rest) == ts
    ensures ReadAs(Items(elems, comma), [Symbol(TArray)] + ([Symbol(TSquareOpen)] + ts), ArrayLit(Meanings(elems)), rest)
  {
    hide Regulars, Symbol, ElemsTokens;
    assert Meaning(Items(elems, comma)).elems == Meanings(elems);
  }

  lemma {:induction false} ElemsAreForms(ts: seq<Token>) returns (elems: seq<Form>, comma: bool)
    requires Regulars(ts) && ParseElems(ts).Ok?
    ensures var r := ParseElems(ts);
      && ProperAll(elems) && Meanings(elems) == r.value && (comma ==> elems != [])
      && ElemsTokens(elems, comma, r.rest) == ts && Regulars(r.rest)
    decreases |ts|, 9
  {
    hide ParseExpr, Regulars, Symbol, Proper, Meaning, FormTokens;
    if AtEof(ts) || ts[0].typ == TSquareClose {
      elems, comma := [], false;
      assert Meanings(elems) == [];
    } else {
      var f := ExprIsForm(ts);
      var ts1 := ParseExpr(ts).rest;
      if ts1[0].typ == TSquareClose {
        elems, comma := [f], false;
        assert Meanings(elems) == [Meaning(f)];
      } else {
        SymbolAt(ts1, TComma);
        var es, more := ElemsAreForms(ts1[1..]);
        elems, comma := [f] + es, more || es == [];
        assert Meanings(elems) == [Meaning(f)] + Meanings(es);
        assert elems[1..] == es;
      }
    }
  }

  lemma {:induction false} BinaryIsForm(level: nat, ts: seq<Token>) returns (f: Form)
    requires Regulars(ts) && 1 <= level <= 3 && ParseBinary(level, ts).Ok?
    ensures ReadAs(f, ts, ParseBinary(level, ts).value, ParseBinary(level, ts).rest) && FormLevel(f) >= level
    decreases |ts|, 6 - level
  {
    hide ParseOperand, ParseChain, Regulars;
    f := OperandIsForm(level, ts);
    var r := ParseOperand(level, ts);
    f := ChainIsForm(level, f, r.value, r.rest, ts);
  }

  lemma {:induction false} OperandIsForm(level: nat, ts: seq<Token>) returns (f: Form)
    requires Regulars(ts) && 1 <= level <= 3 && ParseOperand(level, ts).Ok?
    ensures ReadAs(f, ts, ParseOperand(level, ts).value, ParseOperand(level, ts).rest) && FormLevel(f) >= level + 1
    decreases |ts|, 6 - level, 0
  {
    hide Regulars;
    if level == 3 {
      f := CallIsForm(ts);
    } else {
      f := BinaryIsForm(level + 1, ts);
    }
  }

  lemma {:induction false} ChainIsForm(level: nat, left: Form, e: Expr, ts: seq<Token>, start: seq<Token>) returns (f: Form)
    requires 1 <= level <= 3 && |ts| < |start| && ParseChain(level, e, ts).Ok?
    requires ReadAs(left, start, e, ts) && FormLevel(left) >= level
    ensures ReadAs(f, start, ParseChain(level, e, ts).value, ParseChain(level, e, ts).rest) && FormLevel(f) >= level
    decreases |ts|, 0
  {
    hide ParseOperand, IsOperatorAt, OperatorOf, Regulars;
    if ts != [] && IsOperatorAt(level, ts[0]) {
      OperatorAt(level, ts);
      var right := OperandIsForm(level, ts[1..]);
      var r := ParseOperand(level, ts[1..]);
      var op := OperatorOf(ts[0]);
      f := ChainIsForm(level, Infix(op, left, right), Binary(op, e, r.value), r.rest, start);
    } else {
      f := left;
    }
  }

  lemma {:induction false} CallIsForm(ts: seq<Token>) returns (f: Form)
    requires Regulars(ts) && ParseCall(ts).Ok?
    ensures ReadAs(f, ts, ParseCall(ts).value, ParseCall(ts).rest) && FormLevel(f) == 4
    decreases |ts|, 2
  {
    hide ParseArgs, ParsePrimary, Regulars, Symbol, ArgsTokens;
    if |ts| > 2 && ts[0].typ == TIdent && ts[1].typ == TParenOpen {
      NameAt(ts);
      SymbolAt(ts[1..], TParenOpen);
      assert ts[1..][1..] == ts[2..];
      var args := ArgsAreForms(ts[2..]);
      SymbolAt(ParseArgs(ts[2..]).rest, TParenClose);
      f := Apply(ts[0].text, args);
      assert Meaning(f).args == ArgMeanings(args);
    } else {
      f := PrimaryIsForm(ts);
    }
  }

  lemma {:induction false} ParenLonger(f: Form, k: seq<Token>)
    requires Proper(f) && FirstOf(f) == TParenOpen
    ensures |FormTokens(f, k)| > |k| + 1
    decreases f
  {
    match f
    case Grouped(inner) => FirstToken(inner, [Symbol(TParenClose)] + k);
    case Infix(op, left, right) =>
      FirstToken(right, k);
      ParenLonger(left, [OperatorToken(op)] + FormTokens(right, k));
    case _ =>
  }

  lemma {:induction false} ArgsAreForms(ts: seq<Token>) returns (args: seq<Arg>)
    requires Regulars(ts) && ParseArgs(ts).Ok?
    ensures var r := ParseArgs(ts);
      ProperArgs(args) && ArgMeanings(args) == r.value && ArgsTokens(args, r.rest) == ts && Regulars(r.rest)
    decreases |ts|, 9
  {
    hide ParseExpr, Regulars, Symbol, Proper, Meaning, FormTokens, Separate;
    if AtEof(ts) || ts[0].typ == TParenClose {
      args := [];
      assert ArgMeanings(args) == [];
    } else {
      var f := ExprIsForm(ts);
      var ts1 := ParseExpr(ts).rest;
      var comma := ts1[0].typ == TComma;
      if comma {
        SymbolAt(ts1, TComma);
      }
      var ts2 := if comma then ts1[1..] else ts1;
      var es := ArgsAreForms(ts2);
      args := [Arg(f, comma)] + es;
      if es != [] {
        NextIsSeparate(f, comma, es, ParseArgs(ts2).rest, ts1);
      }
      ArgsJoined(Arg(f, comma), es);
      assert args[1..] == es;
    }
  }

  lemma ArgsJoined(a: Arg, args: seq<Arg>)
    requires Proper(a.form) && ProperArgs(args) && (args != [] ==> Separate(a, args[0].form))
    ensures ProperArgs([a] + args) && ArgMeanings([a] + args) == [Meaning(a.form)] + ArgMeanings(args)
  {
    hide Proper, Meaning, Separate;
    var all := [a] + args;
    forall i | 0 <= i < |all| - 1
      ensures Separate(all[i], all[i + 1].form)
    {
      assert all[i + 1] == args[i] && (i > 0 ==> all[i] == args[i - 1]);
    }
  }

  // What was read behind an argument without a comma does not extend it.
  lemma NextIsSeparate(f: Form, comma: bool, args: seq<Arg>, rest: seq<Token>, ts: seq<Token>)
    requires NotCalled(f, ts) && ProperArgs(args) && args != [] && (!comma ==> ArgsTokens(args, rest) == ts)
    ensures Separate(Arg(f, comma), args[0].form)
  {
    hide Proper, FormTokens;
    if !comma && FirstOf(args[0].form) == TParenOpen {
      ArgsTail(args);
      ArgsGrow(args, rest);
      ParenLonger(args[0].form, Comma(args[0].comma, ArgsTokens(args[1..], rest)));
    }
  }

  lemma {:induction false} PrimaryIsForm(ts: seq<Token>) returns (f: Form)
    requires Regulars(ts) && ParsePrimary(ts).Ok? && !(|ts| > 2 && ts[0].typ == TIdent && ts[1].typ == TParenOpen)
    ensures ReadAs(f, ts, ParsePrimary(ts).value, ParsePrimary(ts).rest) && FormLevel(f) == 4
    decreases |ts|, 1
  {
    hide ParseExpr, Regulars, Symbol;
    Tail(ts);
    if ts[0].typ == TParenOpen {
      SymbolAt(ts, TParenOpen);
      var inner := ExprIsForm(ts[1..]);
      SymbolAt(ParseExpr(ts[1..]).rest, TParenClose);
      f := Grouped(inner);
    } else {
      f := Word(ts[0]);
    }
  }

  // ----- statements -----

  // s was read from the front of ts as the form f, and any else that it could take was taken.
  ghost predicate StmtReadAs(f: StmtForm, ts: seq<Token>, s: Stmt, rest: seq<Token>) {
    && ProperStmt(f) && StmtMeaning(f) == s && StmtFormTokens(f, rest) == ts && Regulars(rest)
    && rest != [] && rest[0].typ != TSemicolon && (OpenForm(f) ==> rest[0].typ != TElse)
  }

  lemma {:induction false} SemicolonsCounted(ts: seq<Token>) returns (n: nat)
    requires Regulars(ts) && SkipSemicolons(ts).Ok?
    ensures Semicolons(n, SkipSemicolons(ts).rest) == ts && Regulars(SkipSemicolons(ts).rest)
    decreases |ts|
  {
    hide Regulars, Symbol;
    n := 0;
    if ts[0].typ == TSemicolon {
      SymbolAt(ts, TSemicolon);
      n := SemicolonsCounted(ts[1..]);
      n := n + 1;
    }
  }

  lemma {:induction false} StmtIsForm(ts: seq<Token>) returns (f: StmtForm)
    requires Regulars(ts) && ParseStmt(ts).Ok?
    ensures StmtReadAs(f, ts, ParseStmt(ts).value, ParseStmt(ts).rest)
    decreases |ts|, 11
  {
    hide ParseVarDecl, ParseFnDecl, ParseBlock, ParseIf, ParseLoop, ParseExpr, Progress, LoopProgress, Regulars;
    hide Symbol, SkipSemicolons, StmtReadAs;
    var k := ParseStmt(ts).rest;
    match ts[0].typ
    case TVar => f := DeclIsForm(ts, k);
    case TConst => f := DeclIsForm(ts, k);
    case TFunction => f := FnIsForm(ts, k);
    case TBraceOpen => f := BlockIsForm(ts, k);
    case TIf => NothingSkipped(ParseIf(ts).rest); f := IfIsForm(ts);
    case TLoop => NothingSkipped(ParseLoop(ts).rest); f := LoopIsForm(ts);
    case _ => f := ExprStmtIsForm(ts, k);
  }

  lemma {:induction false} ExprStmtIsForm(ts: seq<Token>, k: seq<Token>) returns (f: StmtForm)
    requires Regulars(ts) && ParseExpr(ts).Ok? && At(ParseExpr(ts).rest, TSemicolon)
    requires SkipsTo(ParseExpr(ts).rest[1..], k)
    ensures StmtReadAs(f, ts, ExprStmt(ParseExpr(ts).value), k)
    decreases |ts|, 10
  {
    hide ParseExpr, Regulars, Symbol, SkipSemicolons, Proper, FormTokens, Meaning, Semicolons, Progress;
    var e := ExprIsForm(ts);
    var ts1 := ParseExpr(ts).rest;
    SymbolAt(ts1, TSemicolon);
    var n := SemicolonsCounted(ts1[1..]);
    StmtEnds(ts1[1..]);
    f := ExprForm(e, n);
  }

  predicate SkipsTo(ts: seq<Token>, k: seq<Token>) { SkipSemicolons(ts).Ok? && SkipSemicolons(ts).rest == k }

  lemma NothingSkipped(ts: seq<Token>)
    requires ts != [] && ts[0].typ != TSemicolon
    ensures SkipSemicolons(ts) == Ok((), ts)
  {
  }

  lemma {:induction false} StmtEnds(ts: seq<Token>)
    requires SkipSemicolons(ts).Ok?
    ensures SkipSemicolons(ts).rest != [] && SkipSemicolons(ts).rest[0].typ != TSemicolon
  {
  }

  // What stands between the name of a declaration and its semicolon.
  lemma {:induction false} InitIsForm(ts: seq<Token>) returns (init: Option<Form>)
    requires Regulars(ts) && ts != []
    requires !At(ts, TSemicolon) ==> At(ts, TAssign) && ParseExpr(ts[1..]).Ok?
    ensures var rest := if At(ts, TSemicolon) then ts else ParseExpr(ts[1..]).rest;
      && (init.Some? <==> !At(ts, TSemicolon)) && (init.Some? ==> Proper(init.value)) && Regulars(rest)
      && (init.Some? ==> Meaning(init.value) == ParseExpr(ts[1..]).value)
      && ts == if init.None? then rest else [Symbol(TAssign)] + FormTokens(init.value, rest)
    decreases |ts|, 10
  {
    hide ParseExpr, Regulars, Symbol, Proper, FormTokens, Meaning;
    init := None;
    if !At(ts, TSemicolon) {
      SymbolAt(ts, TAssign);
      var e := ExprIsForm(ts[1..]);
      init := Some(e);
    }
  }

  lemma {:induction false} DeclIsForm(ts: seq<Token>, k: seq<Token>) returns (f: StmtForm)
    requires Regulars(ts) && (At(ts, TVar) || At(ts, TConst))
    requires ParseVarDecl(ts).Ok? && At(ParseVarDecl(ts).rest, TSemicolon)
    requires SkipsTo(ParseVarDecl(ts).rest[1..], k)
    ensures StmtReadAs(f, ts, ParseVarDecl(ts).value, k)
    decreases |ts|, 10
  {
    hide ParseExpr, Regulars, Symbol, SkipSemicolons, Proper, FormTokens, Meaning, Semicolons, Progress, LoopProgress;
    SymbolAt(ts, ts[0].typ);
    NameAt(ts[1..]);
    var init := InitIsForm(ts[1..][1..]);
    var ts2 := ParseVarDecl(ts).rest;
    SymbolAt(ts2, TSemicolon);
    var n := SemicolonsCounted(ts2[1..]);
    StmtEnds(ts2[1..]);
    f := DeclForm(ts[1..][0].text, ts[0].typ == TConst, init, n);
    assert StmtMeaning(f) == ParseVarDecl(ts).value;
  }

  lemma {:induction false} ParamsAreForms(ts: seq<Token>) returns (comma: bool)
    requires Regulars(ts) && ParseParams(ts).Ok?
    ensures var r := ParseParams(ts);
      (comma ==> r.value != []) && ParamTokens(r.value, comma, r.rest) == ts && Regulars(r.rest)
    decreases |ts|
  {
    hide Regulars, Symbol;
    comma := false;
    if !(AtEof(ts) || ts[0].typ == TParenClose) {
      NameAt(ts);
      var ts1 := ts[1..];
      if ts1[0].typ != TParenClose {
        SymbolAt(ts1, TComma);
        var more := ParamsAreForms(ts1[1..]);
        var names := ParseParams(ts1[1..]).value;
        comma := more || names == [];
        assert ParseParams(ts).value[1..] == names;
      }
    }
  }

  lemma {:induction false} FnHeadIsForm(ts: seq<Token>) returns (comma: bool)
    requires Regulars(ts) && ParseFnHead(ts).Ok?
    ensures var r := ParseFnHead(ts);
      && (comma ==> r.value.1 != []) && Regulars(r.rest) && |r.rest| < |ts|
      && [Symbol(TFunction)] + ([Name(r.value.0)] + ([Symbol(TParenOpen)]
         + ParamTokens(r.value.1, comma, [Symbol(TParenClose)] + r.rest))) == ts
  {
    hide Regulars, Symbol, ParseParams, ParamTokens;
    SymbolAt(ts, TFunction);
    NameAt(ts[1..]);
    SymbolAt(ts[1..][1..], TParenOpen);
    comma := ParamsAreForms(ts[1..][1..][1..]);
    SymbolAt(ParseParams(ts[1..][1..][1..]).rest, TParenClose);
  }

  lemma {:induction false} FnIsForm(ts: seq<Token>, k: seq<Token>) returns (f: StmtForm)
    requires Regulars(ts) && ParseFnDecl(ts).Ok? && SkipsTo(ParseFnDecl(ts).rest, k)
    ensures StmtReadAs(f, ts, ParseFnDecl(ts).value, k)
    decreases |ts|, 9
  {
    hide ParseFnHead, ParseStmts, Regulars, Symbol, SkipSemicolons, ParamTokens, StmtFormsTokens, Progress;
    hide LoopProgress;
    var comma := FnHeadIsForm(ts);
    var head := ParseFnHead(ts);
    SymbolAt(head.rest, TBraceOpen);
    var body := StmtsAreForms(head.rest[1..], true);
    var ts3 := ParseStmts(head.rest[1..], true).rest;
    SymbolAt(ts3, TBraceClose);
    var n := SemicolonsCounted(ts3[1..]);
    StmtEnds(ts3[1..]);
    f := FnForm(head.value.0, head.value.1, comma, body, n);
    assert StmtMeaning(f).body == StmtMeanings(body);
  }

  lemma {:induction false} BlockIsForm(ts: seq<Token>, k: seq<Token>) returns (f: StmtForm)
    requires Regulars(ts) && ParseBlock(ts).Ok? && SkipsTo(ParseBlock(ts).rest, k)
    ensures StmtReadAs(f, ts, ParseBlock(ts).value, k)
    decreases |ts|, 9
  {
    hide ParseStmts, Regulars, Symbol, SkipSemicolons, StmtFormsTokens, LoopProgress;
    SymbolAt(ts, TBraceOpen);
    var stmts := StmtsAreForms(ts[1..], true);
    var ts2 := ParseStmts(ts[1..], true).rest;
    SymbolAt(ts2, TBraceClose);
    var n := SemicolonsCounted(ts2[1..]);
    StmtEnds(ts2[1..]);
    f := BlockForm(stmts, n);
    assert StmtMeaning(f).stmts == StmtMeanings(stmts);
  }

  lemma {:induction false} ConditionIsForm(ts: seq<Token>) returns (f: Form)
    requires Regulars(ts) && ParseCondition(ts).Ok?
    ensures var r := ParseCondition(ts);
      && Proper(f) && Meaning(f) == r.value && Regulars(r.rest) && |r.rest| < |ts|
      && [Symbol(TIf)] + ([Symbol(TParenOpen)] + FormTokens(f, [Symbol(TParenClose)] + r.rest)) == ts
    decreases |ts|, 8
  {
    hide ParseExpr, Regulars, Symbol, Proper, FormTokens, Meaning;
    SymbolAt(ts, TIf);
    SymbolAt(ts[1..], TParenOpen);
    f := ExprIsForm(ts[1..][1..]);
    SymbolAt(ParseExpr(ts[1..][1..]).rest, TParenClose);
  }

  lemma {:induction false} IfIsForm(ts: seq<Token>) returns (f: StmtForm)
    requires Regulars(ts) && ParseIf(ts).Ok?
    ensures StmtReadAs(f, ts, ParseIf(ts).value, ParseIf(ts).rest)
    decreases |ts|, 9
  {
    hide ParseCondition, ParseStmt, Regulars, Symbol, Proper, FormTokens, Meaning;
    var cond := ConditionIsForm(ts);
    var ts1 := ParseCondition(ts).rest;
    var thn := StmtIsForm(ts1);
    var ts2 := ParseStmt(ts1).rest;
    if At(ts2, TElse) {
      SymbolAt(ts2, TElse);
      var els := StmtIsForm(ts2[1..]);
      f := IfForm(cond, thn, Some(els));
    } else {
      f := IfForm(cond, thn, None);
    }
  }

  // The head of a loop up to the name behind it, if there is one.
  lemma {:induction false} CountIsForm(ts: seq<Token>) returns (count: Option<Count>)
    requires Regulars(ts) && ParseLoopCount(ts).Ok?
    ensures var r := ParseLoopCount(ts);
      && (count.Some? ==> Proper(count.value.form)) && Regulars(r.rest)
      && r.value.0 == (if count.None? then None else Some(Meaning(count.value.form)))
      && r.value.1 == (if count.None? then None else count.value.asName)
      && CountTokens(count, None, r.rest) == ts && (count.None? ==> !At(ts, TParenOpen))
    decreases |ts|, 8
  {
    hide ParseExpr, Regulars, Symbol, Proper, FormTokens, Meaning, ParseAsName, Progress, LoopProgress;
    count := None;
    if At(ts, TParenOpen) {
      SymbolAt(ts, TParenOpen);
      var e := ExprIsForm(ts[1..]);
      var ts1 := ParseExpr(ts[1..]).rest;
      AsNameIs(ts1);
      var named := ParseAsName(ts1);
      SymbolAt(named.rest, TParenClose);
      count := Some(Count(e, named.value));
    }
  }

  lemma CountConsumes(ts: seq<Token>)
    ensures ParseLoopCount(ts).Ok? ==> |ParseLoopCount(ts).rest| <= |ts|
  {
    hide ParseLoopCount;
    var r := ParseLoopCount(ts);
  }

  lemma AsNameIs(ts: seq<Token>)
    requires Regulars(ts) && ParseAsName(ts).Ok?
    ensures var r := ParseAsName(ts);
      && Regulars(r.rest)
      && ts == if r.value.None? then r.rest else [Symbol(TAs)] + ([Name(r.value.value)] + r.rest)
  {
    hide Regulars, Symbol;
    if ts[0].typ != TParenClose {
      SymbolAt(ts, TAs);
      NameAt(ts[1..]);
    }
  }

  lemma {:induction false} LoopIsForm(ts: seq<Token>) returns (f: StmtForm)
    requires Regulars(ts) && ParseLoop(ts).Ok?
    ensures StmtReadAs(f, ts, ParseLoop(ts).value, ParseLoop(ts).rest)
    decreases |ts|, 9
  {
    hide ParseLoopCount, ParseStmt, Regulars, Symbol, Proper, FormTokens, Meaning, Progress, LoopProgress;
    SymbolAt(ts, TLoop);
    CountConsumes(ts[1..]);
    var count := CountIsForm(ts[1..]);
    var ts2 := ParseLoopCount(ts[1..]).rest;
    var named := if ts2[0].typ == TIdent then Some(ts2[0].text) else None;
    if named.Some? {
      NameAt(ts2);
    }
    var ts3 := if named.Some? then ts2[1..] else ts2;
    var body := StmtIsForm(ts3);
    FirstOfStmtTokens(body, ParseStmt(ts3).rest);
    f := LoopForm(count, named, body);
  }

  lemma {:induction false} StmtsAreForms(ts: seq<Token>, inBraces: bool) returns (ss: seq<StmtForm>)
    requires Regulars(ts) && ParseStmts(ts, inBraces).Ok?
    ensures var r := ParseStmts(ts, inBraces);
      && ProperStmts(ss) && StmtMeanings(ss) == r.value && StmtFormsTokens(ss, r.rest) == ts && Regulars(r.rest)
      && (AtEof(r.rest) || (inBraces && At(r.rest, TBraceClose))) && (ss != [] ==> r.rest != [])
    decreases |ts|, 12
  {
    hide ParseStmt, Regulars, ProperStmt, StmtMeaning, StmtFormTokens;
    if AtEof(ts) || (inBraces && ts[0].typ == TBraceClose) {
      ss := [];
      assert StmtMeanings(ss) == [];
    } else {
      var s := StmtIsForm(ts);
      var r := ParseStmt(ts);
      var rest := StmtsAreForms(r.rest, inBraces);
      ss := [s] + rest;
      assert ss[1..] == rest;
      assert StmtMeanings(ss) == [StmtMeaning(s)] + StmtMeanings(rest);
    }
  }

  // The tokens that are read as a program up to rest are exactly those of its forms in front of
  // rest, which starts with the end of the file.
  lemma ProgramsAreForms(ts: seq<Token>, program: seq<Stmt>, rest: seq<Token>)
    requires Regulars(ts) && ts != []
    ensures ParseProgram(ts) == Ok(program, rest)
       <==> At(rest, TEof) && exists ss :: ProperStmts(ss) && StmtMeanings(ss) == program && StmtFormsTokens(ss, rest) == ts
  {
    hide Regulars, ParseStmts, ProperStmt, StmtMeaning, StmtFormTokens;
    if ParseProgram(ts) == Ok(program, rest) {
      var ss := StmtsAreForms(ts, false);
      assert ss == [] ==> rest == ts;
    }
    forall ss | At(rest, TEof) && ProperStmts(ss) && StmtMeanings(ss) == program && StmtFormsTokens(ss, rest) == ts
      ensures ParseProgram(ts) == Ok(program, rest)
    {
      FormsReadBack(ss, rest);
    }
  }
}
