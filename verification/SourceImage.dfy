/** Exactly the legal programs are read from source texts. */
module SourceImage {
  import opened Ast
  import opened Tokens
  import opened Grammar
  import opened Printer
  import opened Lexer
  import opened Layout
  import opened FrontEnd
  import ParserImage

  // ----- the tokens of a text -----

  // What the lexer guarantees about names and strings.
  predicate FromText(t: Token) {
    (t.typ == TIdent ==> LegalName(t.text)) && (t.typ == TString ==> !('"' in t.text && '\'' in t.text))
  }

  predicate TextTokens(ts: seq<Token>) { forall i :: 0 <= i < |ts| ==> FromText(ts[i]) }

  lemma TextTail(ts: seq<Token>)
    requires TextTokens(ts)
    ensures ts != [] ==> FromText(ts[0]) && TextTokens(ts[1..])
  {
    hide FromText;
  }

  lemma NextFromText(s: string)
    requires s != [] && Next(s).Lexed?
    ensures FromText(Next(s).token)
  {
    hide Next, Apart, IsIdentifier;
    ItemFits(s);
  }

  lemma {:induction false} LexedFromText(s: string, pos: Position)
    ensures var lexed := Lex(s, pos);
      lexed.Tokenized? ==> TextTokens(TokensOf(lexed.tokens))
    decreases |s|
  {
    hide Next, FromText, TokensOf, Symbol, Advanced;
    if s == [] {
      EndFromText();
      FirstTokenOf(Placed(Symbol(TEof), pos, pos), []);
      NoTokens();
      assert Lex(s, pos).tokens == [Placed(Symbol(TEof), pos, pos)] + [];
    } else if !Next(s).Unreadable? {
      var n := Next(s).len;
      var pos' := Advanced(pos, s[..n]);
      LexedFromText(s[n..], pos');
      if Next(s).Lexed? && Lex(s[n..], pos').Tokenized? {
        NextFromText(s);
        FirstTokenOf(Placed(Next(s).token, pos, pos'), Lex(s[n..], pos').tokens);
      }
    }
  }

  lemma EndFromText()
    ensures FromText(Symbol(TEof))
  {
  }

  // ----- what is parsed from them -----

  ghost predicate LegalResult(r: Parse<Expr>) { r.Ok? ==> LegalExpr(r.value) && TextTokens(r.rest) }

  ghost predicate LegalResults(r: Parse<seq<Expr>>) {
    r.Ok? ==> (forall e :: e in r.value ==> LegalExpr(e)) && TextTokens(r.rest)
  }

  lemma {:induction false} ExprLegal(ts: seq<Token>)
    requires TextTokens(ts)
    ensures LegalResult(ParseExpr(ts))
    decreases |ts|, 8
  {
    hide ParseArray, Progress, TextTokens, LegalName;
    if !AtEof(ts) && |ts| > 1 && ts[1].typ == TAssign {
      TextTail(ts);
      TextTail(ts[1..]);
      if ts[0].typ == TIdent {
        ExprLegal(ts[1..][1..]);
      }
    } else {
      ArrayLegal(ts);
    }
  }

  lemma {:induction false} ArrayLegal(ts: seq<Token>)
    requires TextTokens(ts)
    ensures LegalResult(ParseArray(ts))
    decreases |ts|, 7
  {
    hide ParseBinary, ParseElems, Progress, TextTokens, FromText;
    if ts != [] && ts[0].typ != TArray {
      BinaryLegal(1, ts);
    } else if |ts| > 1 && ts[0].typ == TArray {
      TextTail(ts);
      TextTail(ts[1..]);
      ElemsLegal(ts[1..][1..]);
      var r := ParseElems(ts[1..][1..]);
      if r.Ok? {
        TextTail(r.rest);
      }
    }
  }

  lemma {:induction false} ElemsLegal(ts: seq<Token>)
    requires TextTokens(ts)
    ensures LegalResults(ParseElems(ts))
    decreases |ts|, 9
  {
    hide ParseExpr, TextTokens, FromText, LegalExpr;
    if !(AtEof(ts) || ts[0].typ == TSquareClose) {
      ExprLegal(ts);
      var r := ParseExpr(ts);
      if r.Ok? && r.rest != [] && r.rest[0].typ == TComma {
        TextTail(r.rest);
        ElemsLegal(r.rest[1..]);
      }
    }
  }

  lemma {:induction false} BinaryLegal(level: nat, ts: seq<Token>)
    requires 1 <= level <= 3 && TextTokens(ts)
    ensures LegalResult(ParseBinary(level, ts))
    decreases |ts|, 6 - level
  {
    hide ParseOperand, ParseChain, TextTokens, LegalExpr;
    OperandLegal(level, ts);
    var r := ParseOperand(level, ts);
    if r.Ok? {
      ChainLegal(level, r.value, r.rest);
    }
  }

  lemma {:induction false} OperandLegal(level: nat, ts: seq<Token>)
    requires 1 <= level <= 3 && TextTokens(ts)
    ensures LegalResult(ParseOperand(level, ts))
    decreases |ts|, 6 - level, 0
  {
    hide TextTokens, LegalExpr;
    if level == 3 {
      CallLegal(ts);
    } else {
      BinaryLegal(level + 1, ts);
    }
  }

  lemma {:induction false} ChainLegal(level: nat, left: Expr, ts: seq<Token>)
    requires 1 <= level <= 3 && LegalExpr(left) && TextTokens(ts)
    ensures LegalResult(ParseChain(level, left, ts))
    decreases |ts|, 0
  {
    hide ParseOperand, IsOperatorAt, OperatorOf, TextTokens, FromText;
    if ts != [] && IsOperatorAt(level, ts[0]) {
      TextTail(ts);
      OperandLegal(level, ts[1..]);
      var r := ParseOperand(level, ts[1..]);
      if r.Ok? {
        ChainLegal(level, Binary(OperatorOf(ts[0]), left, r.value), r.rest);
      }
    }
  }

  lemma {:induction false} CallLegal(ts: seq<Token>)
    requires TextTokens(ts)
    ensures LegalResult(ParseCall(ts))
    decreases |ts|, 2
  {
    hide ParseArgs, ParsePrimary, TextTokens, LegalName;
    if |ts| > 2 && ts[0].typ == TIdent && ts[1].typ == TParenOpen {
      TextTail(ts);
      TextTail(ts[1..]);
      assert ts[1..][1..] == ts[2..];
      ArgsLegal(ts[2..]);
      var r := ParseArgs(ts[2..]);
      if r.Ok? {
        TextTail(r.rest);
      }
    } else {
      PrimaryLegal(ts);
    }
  }

  lemma {:induction false} ArgsLegal(ts: seq<Token>)
    requires TextTokens(ts)
    ensures LegalResults(ParseArgs(ts))
    decreases |ts|, 9
  {
    hide ParseExpr, TextTokens, FromText, LegalExpr;
    if !(AtEof(ts) || ts[0].typ == TParenClose) {
      ExprLegal(ts);
      var r := ParseExpr(ts);
      if r.Ok? && r.rest != [] {
        TextTail(r.rest);
        ArgsLegal(if r.rest[0].typ == TComma then r.rest[1..] else r.rest);
      }
    }
  }

  lemma {:induction false} PrimaryLegal(ts: seq<Token>)
    requires TextTokens(ts)
    ensures LegalResult(ParsePrimary(ts))
    decreases |ts|, 1
  {
    hide ParseExpr, TextTokens, LegalName;
    TextTail(ts);
    if At(ts, TParenOpen) {
      ExprLegal(ts[1..]);
      var r := ParseExpr(ts[1..]);
      if r.Ok? {
        TextTail(r.rest);
      }
    }
  }

  // ----- statements -----

  ghost predicate LegalStmtResult(r: Parse<Stmt>) { r.Ok? ==> LegalStmt(r.value) && TextTokens(r.rest) }

  lemma {:induction false} SemicolonsLegal(ts: seq<Token>)
    requires TextTokens(ts)
    ensures SkipSemicolons(ts).Ok? ==> TextTokens(SkipSemicolons(ts).rest)
  {
    hide TextTokens, FromText;
    TextTail(ts);
    if At(ts, TSemicolon) {
      SemicolonsLegal(ts[1..]);
    }
  }

  lemma {:induction false} StmtLegal(ts: seq<Token>)
    requires TextTokens(ts)
    ensures LegalStmtResult(ParseStmt(ts))
    decreases |ts|, 11
  {
    hide ParseBareStmt, SkipSemicolons, TextTokens, LegalStmt;
    BareStmtLegal(ts);
    if ParseBareStmt(ts).Ok? {
      SemicolonsLegal(ParseBareStmt(ts).rest);
    }
  }

  lemma {:induction false} BareStmtLegal(ts: seq<Token>)
    requires TextTokens(ts)
    ensures LegalStmtResult(ParseBareStmt(ts))
    decreases |ts|, 10
  {
    hide ParseVarDecl, ParseFnDecl, ParseBlock, ParseIf, ParseLoop, ParseExpr, Progress, TextTokens, FromText;
    if ts != [] {
      match ts[0].typ
      case TVar => VarDeclStmtLegal(ts);
      case TConst => VarDeclStmtLegal(ts);
      case TFunction => FnDeclLegal(ts);
      case TBraceOpen => BlockLegal(ts);
      case TIf => IfLegal(ts);
      case TLoop => LoopLegal(ts);
      case _ =>
        ExprLegal(ts);
        if ParseExpr(ts).Ok? { TextTail(ParseExpr(ts).rest); }
    }
  }

  // A declaration, and what follows its semicolon.
  lemma VarDeclStmtLegal(ts: seq<Token>)
    requires TextTokens(ts) && (At(ts, TVar) || At(ts, TConst))
    ensures LegalStmtResult(ParseVarDecl(ts))
    ensures ParseVarDecl(ts).Ok? && ParseVarDecl(ts).rest != [] ==> TextTokens(ParseVarDecl(ts).rest[1..])
  {
    hide ParseExpr, TextTokens, LegalName;
    TextTail(ts);
    TextTail(ts[1..]);
    if |ts| > 2 {
      TextTail(ts[1..][1..]);
      ExprLegal(ts[1..][1..][1..]);
    }
    if ParseVarDecl(ts).Ok? {
      TextTail(ParseVarDecl(ts).rest);
    }
  }

  lemma {:induction false} ParamsLegal(ts: seq<Token>)
    requires TextTokens(ts)
    ensures var r := ParseParams(ts);
      r.Ok? ==> (forall p :: p in r.value ==> LegalName(p)) && TextTokens(r.rest)
    decreases |ts|
  {
    hide TextTokens, LegalName;
    TextTail(ts);
    if |ts| > 1 && !AtEof(ts) && ts[0].typ == TIdent && ts[1].typ == TComma {
      TextTail(ts[1..]);
      ParamsLegal(ts[1..][1..]);
    }
  }

  lemma FnHeadLegal(ts: seq<Token>)
    requires TextTokens(ts)
    ensures var r := ParseFnHead(ts);
      r.Ok? ==> LegalName(r.value.0) && (forall p :: p in r.value.1 ==> LegalName(p)) && TextTokens(r.rest)
  {
    hide ParseParams, TextTokens, LegalName;
    if ParseFnHead(ts).Ok? {
      TextTail(ts);
      TextTail(ts[1..]);
      TextTail(ts[1..][1..]);
      ParamsLegal(ts[1..][1..][1..]);
      TextTail(ParseParams(ts[1..][1..][1..]).rest);
    }
  }

  lemma {:induction false} FnDeclLegal(ts: seq<Token>)
    requires TextTokens(ts)
    ensures LegalStmtResult(ParseFnDecl(ts))
    decreases |ts|, 9
  {
    hide ParseFnHead, ParseStmts, TextTokens, FromText, LegalName;
    if ParseFnDecl(ts).Ok? {
      FnHeadLegal(ts);
      var ts1 := ParseFnHead(ts).rest;
      TextTail(ts1);
      StmtsLegal(ts1[1..], true);
      TextTail(ParseStmts(ts1[1..], true).rest);
    }
  }

  lemma {:induction false} BlockLegal(ts: seq<Token>)
    requires TextTokens(ts)
    ensures LegalStmtResult(ParseBlock(ts))
    decreases |ts|, 9
  {
    hide ParseStmts, TextTokens, FromText;
    if ParseBlock(ts).Ok? {
      TextTail(ts);
      StmtsLegal(ts[1..], true);
      TextTail(ParseStmts(ts[1..], true).rest);
    }
  }

  lemma ConditionLegal(ts: seq<Token>)
    requires TextTokens(ts)
    ensures LegalResult(ParseCondition(ts))
  {
    hide ParseExpr, TextTokens, FromText, LegalExpr;
    if ParseCondition(ts).Ok? {
      TextTail(ts);
      TextTail(ts[1..]);
      ExprLegal(ts[1..][1..]);
      TextTail(ParseExpr(ts[1..][1..]).rest);
    }
  }

  lemma {:induction false} IfLegal(ts: seq<Token>)
    requires TextTokens(ts)
    ensures LegalStmtResult(ParseIf(ts))
    decreases |ts|, 9
  {
    hide ParseCondition, ParseStmt, TextTokens, FromText, LegalExpr;
    if ParseIf(ts).Ok? {
      ConditionLegal(ts);
      var ts1 := ParseCondition(ts).rest;
      StmtLegal(ts1);
      var ts2 := ParseStmt(ts1).rest;
      TextTail(ts2);
      if At(ts2, TElse) {
        StmtLegal(ts2[1..]);
      }
    }
  }

  lemma LoopCountLegal(ts: seq<Token>)
    requires TextTokens(ts)
    ensures var r := ParseLoopCount(ts);
      r.Ok? ==>
        && (r.value.0.Some? ==> LegalExpr(r.value.0.value)) && (r.value.1.Some? ==> LegalName(r.value.1.value))
        && TextTokens(r.rest)
  {
    hide ParseExpr, TextTokens, LegalName, LegalExpr;
    if At(ts, TParenOpen) {
      TextTail(ts);
      ExprLegal(ts[1..]);
      var r := ParseExpr(ts[1..]);
      if r.Ok? {
        AsNameLegal(r.rest);
        var named := ParseAsName(r.rest);
        if named.Ok? {
          TextTail(named.rest);
        }
      }
    }
  }

  lemma AsNameLegal(ts: seq<Token>)
    requires TextTokens(ts)
    ensures var r := ParseAsName(ts);
      r.Ok? ==> (r.value.Some? ==> LegalName(r.value.value)) && TextTokens(r.rest)
  {
    hide TextTokens, LegalName;
    TextTail(ts);
    if |ts| > 1 {
      TextTail(ts[1..]);
    }
  }

  lemma {:induction false} LoopLegal(ts: seq<Token>)
    requires TextTokens(ts)
    ensures LegalStmtResult(ParseLoop(ts))
    decreases |ts|, 9
  {
    hide ParseLoopCount, ParseStmt, TextTokens, LegalName, LegalExpr, Progress;
    if ParseLoop(ts).Ok? {
      TextTail(ts);
      LoopCountLegal(ts[1..]);
      var ts2 := ParseLoopCount(ts[1..]).rest;
      TextTail(ts2);
      StmtLegal(if ts2[0].typ == TIdent then ts2[1..] else ts2);
    }
  }

  lemma {:induction false} StmtsLegal(ts: seq<Token>, inBraces: bool)
    requires TextTokens(ts)
    ensures var r := ParseStmts(ts, inBraces);
      r.Ok? ==> (forall s :: s in r.value ==> LegalStmt(s)) && TextTokens(r.rest)
    decreases |ts|, 12
  {
    hide ParseStmt, TextTokens, LegalStmt;
    if !(AtEof(ts) || (inBraces && ts[0].typ == TBraceClose)) {
      StmtLegal(ts);
      var r := ParseStmt(ts);
      if r.Ok? {
        StmtsLegal(r.rest, inBraces);
      }
    }
  }

  // ----- texts and programs -----

  // The program that a text is read as, if it is.
  ghost predicate ReadAs(source: string, program: seq<Stmt>) {
    var lexed := Lex(source, START);
    lexed.Tokenized? &&
    var parsed := ParseProgram(TokensOf(lexed.tokens));
    parsed.Ok? && parsed.value == program
  }

  // There is a text for a program exactly if the program is legal.
  lemma ProgramsWithText(program: seq<Stmt>)
    ensures LegalProgram(program) <==> exists source :: ReadAs(source, program)
  {
    hide Lex, ParseStmts, TextTokens, WfStmt, LegalStmt, SourceOf;
    if LegalProgram(program) {
      SourceReadBack(program);
      assert ReadAs(SourceOf(program), program);
    }
    forall source | ReadAs(source, program)
      ensures LegalProgram(program)
    {
      LexedFromText(source, START);
      var ts := TokensOf(Lex(source, START).tokens);
      StmtsLegal(ts, false);
      ParserImage.StmtsImage(ts, false);
    }
  }
}
