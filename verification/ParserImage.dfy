/** Exactly the well-formed programs are results of the parser. */
module ParserImage {
  import opened Ast
  import opened Tokens
  import opened Grammar
  import opened Printer
  import PrintedForms

  lemma OperatorsAreOfTheirLevel(level: nat, t: Token)
    requires 1 <= level <= 3 && IsOperatorAt(level, t)
    ensures OperatorLevel(OperatorOf(t)) == level
  {
  }

  // e was parsed from the front of ts as an operand of the given level: it is well-formed, and
  // unless ts starts with a parenthesis its printed form starts with the same kind of token.
  ghost predicate Produced(ts: seq<Token>, e: Expr, level: nat) {
    && WfExpr(e) && ts != []
    && (ts[0].typ == TParenOpen || (Level(e) >= level && FirstOfExpr(e, level) == ts[0].typ))
  }

  ghost predicate ProducedBy(ts: seq<Token>, r: Parse<Expr>, level: nat) { r.Ok? ==> Produced(ts, r.value, level) }

  lemma LowerLevel(ts: seq<Token>, r: Parse<Expr>, level: nat)
    requires ProducedBy(ts, r, level + 1)
    ensures ProducedBy(ts, r, level)
  {
  }

  lemma {:induction false} ExprImage(ts: seq<Token>)
    ensures ProducedBy(ts, ParseExpr(ts), 0)
    decreases |ts|, 8
  {
    hide ParseArray, Progress;
    if !AtEof(ts) && |ts| > 1 && ts[1].typ == TAssign {
      if ts[0].typ == TIdent {
        ExprImage(ts[1..][1..]);
      }
    } else {
      ArrayImage(ts);
    }
  }

  lemma {:induction false} ArrayImage(ts: seq<Token>)
    ensures ProducedBy(ts, ParseArray(ts), 0)
    decreases |ts|, 7
  {
    hide ParseBinary, ParseElems, Progress;
    if ts != [] && ts[0].typ != TArray {
      BinaryImage(1, ts);
      LowerLevel(ts, ParseBinary(1, ts), 0);
    } else if |ts| > 1 && ts[0].typ == TArray {
      ElemsImage(ts[1..][1..]);
    }
  }

  lemma {:induction false} ElemsImage(ts: seq<Token>)
    ensures var r := ParseElems(ts);
      r.Ok? ==> forall e :: e in r.value ==> WfExpr(e)
    decreases |ts|, 9
  {
    hide ParseExpr;
    if !(AtEof(ts) || ts[0].typ == TSquareClose) {
      ExprImage(ts);
      var r := ParseExpr(ts);
      if r.Ok? && r.rest != [] && r.rest[0].typ == TComma {
        ElemsImage(r.rest[1..]);
      }
    }
  }

  lemma {:induction false} BinaryImage(level: nat, ts: seq<Token>)
    requires 1 <= level <= 3
    ensures ProducedBy(ts, ParseBinary(level, ts), level)
    decreases |ts|, 6 - level
  {
    hide ParseOperand, ParseChain;
    OperandImage(level, ts);
    var r := ParseOperand(level, ts);
    LowerLevel(ts, r, level);
    if r.Ok? {
      ChainImage(level, r.value, r.rest, ts);
    }
  }

  lemma {:induction false} OperandImage(level: nat, ts: seq<Token>)
    requires 1 <= level <= 3
    ensures ProducedBy(ts, ParseOperand(level, ts), level + 1)
    decreases |ts|, 6 - level, 0
  {
    if level == 3 {
      CallImage(ts);
    } else {
      BinaryImage(level + 1, ts);
    }
  }

  lemma {:induction false} ChainImage(level: nat, left: Expr, ts: seq<Token>, start: seq<Token>)
    requires 1 <= level <= 3 && Produced(start, left, level) && |ts| < |start|
    ensures ProducedBy(start, ParseChain(level, left, ts), level)
    decreases |ts|, 0
  {
    hide ParseOperand, IsOperatorAt, OperatorOf;
    if ts != [] && IsOperatorAt(level, ts[0]) {
      OperandImage(level, ts[1..]);
      OperatorsAreOfTheirLevel(level, ts[0]);
      var r := ParseOperand(level, ts[1..]);
      if r.Ok? {
        ChainImage(level, Binary(OperatorOf(ts[0]), left, r.value), r.rest, start);
      }
    }
  }

  lemma {:induction false} CallImage(ts: seq<Token>)
    ensures ProducedBy(ts, ParseCall(ts), 4)
    decreases |ts|, 2
  {
    hide ParseArgs, ParsePrimary;
    if |ts| > 2 && ts[0].typ == TIdent && ts[1].typ == TParenOpen {
      ArgsImage(ts[2..]);
    } else {
      PrimaryImage(ts);
    }
  }

  lemma {:induction false} ArgsImage(ts: seq<Token>)
    ensures var r := ParseArgs(ts);
      r.Ok? ==> forall e :: e in r.value ==> WfExpr(e)
    decreases |ts|, 9
  {
    hide ParseExpr;
    if !(AtEof(ts) || ts[0].typ == TParenClose) {
      ExprImage(ts);
      var r := ParseExpr(ts);
      if r.Ok? && r.rest != [] {
        ArgsImage(if r.rest[0].typ == TComma then r.rest[1..] else r.rest);
      }
    }
  }

  lemma {:induction false} PrimaryImage(ts: seq<Token>)
    ensures ProducedBy(ts, ParsePrimary(ts), 4)
    decreases |ts|, 1
  {
    hide ParseExpr;
    if At(ts, TParenOpen) {
      ExprImage(ts[1..]);
    }
  }

  // ----- statements -----

  ghost predicate StmtProduced(ts: seq<Token>, r: Parse<Stmt>) {
    r.Ok? ==>
      && WfStmt(r.value) && ts != [] && (ts[0].typ == TParenOpen || FirstOfStmt(r.value) == ts[0].typ)
      && (Open(r.value) ==> r.rest != [] && r.rest[0].typ != TElse && r.rest[0].typ != TSemicolon)
  }

  lemma {:induction false} StmtImage(ts: seq<Token>)
    ensures StmtProduced(ts, ParseStmt(ts))
    decreases |ts|, 11
  {
    hide ParseBareStmt, SkipSemicolons;
    BareStmtImage(ts);
  }

  lemma {:induction false} BareStmtImage(ts: seq<Token>)
    ensures StmtProduced(ts, ParseBareStmt(ts))
    decreases |ts|, 10
  {
    hide ParseVarDecl, ParseFnDecl, ParseBlock, ParseIf, ParseLoop, ParseExpr, Progress;
    if ts != [] {
      match ts[0].typ
      case TVar => VarDeclImage(ts);
      case TConst => VarDeclImage(ts);
      case TFunction => FnDeclImage(ts);
      case TBraceOpen => BlockImage(ts);
      case TIf => IfImage(ts);
      case TLoop => LoopImage(ts);
      case _ => ExprImage(ts);
    }
  }

  lemma VarDeclImage(ts: seq<Token>)
    requires At(ts, TVar) || At(ts, TConst)
    ensures var r := ParseVarDecl(ts);
      r.Ok? ==> WfStmt(r.value) && FirstOfStmt(r.value) == ts[0].typ && !Open(r.value)
  {
    hide ParseExpr;
    if |ts| > 2 {
      ExprImage(ts[1..][1..][1..]);
    }
  }

  lemma FnHeadStarts(ts: seq<Token>)
    ensures var r := ParseFnHead(ts);
      r.Ok? ==> At(ts, TFunction) && |r.rest| < |ts|
  {
    hide ParseParams;
  }

  lemma {:induction false} FnDeclImage(ts: seq<Token>)
    ensures StmtProduced(ts, ParseFnDecl(ts))
    decreases |ts|, 9
  {
    hide ParseFnHead, ParseStmts, Progress, Expect;
    if ParseFnDecl(ts).Ok? {
      FnHeadStarts(ts);
      StmtsImage(ParseFnHead(ts).rest[1..], true);
    }
  }

  lemma {:induction false} BlockImage(ts: seq<Token>)
    ensures StmtProduced(ts, ParseBlock(ts))
    decreases |ts|, 9
  {
    hide ParseStmts;
    if ParseBlock(ts).Ok? {
      StmtsImage(ts[1..], true);
    }
  }

  lemma {:induction false} IfImage(ts: seq<Token>)
    ensures StmtProduced(ts, ParseIf(ts))
    decreases |ts|, 9
  {
    hide ParseExpr, ParseStmt;
    if ParseIf(ts).Ok? {
      var ts2 := ts[1..][1..];
      ExprImage(ts2);
      var ts4 := ParseExpr(ts2).rest[1..];
      StmtImage(ts4);
      var ts5 := ParseStmt(ts4).rest;
      if At(ts5, TElse) {
        StmtImage(ts5[1..]);
      }
    }
  }

  lemma LoopCountImage(ts: seq<Token>)
    ensures var r := ParseLoopCount(ts);
      r.Ok? ==>
        && (r.value.0.Some? ==> WfExpr(r.value.0.value))
        && (r.value.0.None? ==> r.value.1.None? && r.rest == ts && ts[0].typ != TParenOpen)
  {
    hide ParseExpr;
    if At(ts, TParenOpen) {
      ExprImage(ts[1..]);
    }
  }

  lemma {:induction false} LoopImage(ts: seq<Token>)
    ensures StmtProduced(ts, ParseLoop(ts))
    decreases |ts|, 9
  {
    hide ParseLoopCount, ParseStmt, Progress;
    if ParseLoop(ts).Ok? {
      LoopCountImage(ts[1..]);
      var ts2 := ParseLoopCount(ts[1..]).rest;
      StmtImage(if ts2[0].typ == TIdent then ts2[1..] else ts2);
    }
  }

  lemma {:induction false} StmtsImage(ts: seq<Token>, inBraces: bool)
    ensures var r := ParseStmts(ts, inBraces);
      r.Ok? ==> forall s :: s in r.value ==> WfStmt(s)
    decreases |ts|, 12
  {
    hide ParseStmt;
    if !(AtEof(ts) || (inBraces && ts[0].typ == TBraceClose)) {
      StmtImage(ts);
      var r := ParseStmt(ts);
      if r.Ok? {
        StmtsImage(r.rest, inBraces);
      }
    }
  }

  // The parser can produce a program exactly if the program is well-formed, and then it does so
  // from the printed tokens.
  lemma ProgramsThatParse(program: seq<Stmt>)
    ensures WfProgram(program) <==> exists ts :: ParseProgram(ts).Ok? && ParseProgram(ts).value == program
  {
    if WfProgram(program) {
      PrintedForms.ProgramReadBack(program);
      assert ParseProgram(ProgramTokens(program)).Ok?;
    }
    forall ts | ParseProgram(ts).Ok? && ParseProgram(ts).value == program
      ensures WfProgram(program)
    {
      StmtsImage(ts, false);
    }
  }

  // Printing is a normal form: what a token list means is kept by parsing and printing it.
  lemma PrintedFormMeansTheSame(ts: seq<Token>)
    requires ParseProgram(ts).Ok?
    ensures ParseProgram(ProgramTokens(ParseProgram(ts).value)) == Ok(ParseProgram(ts).value, [Symbol(TEof)])
  {
    StmtsImage(ts, false);
    PrintedForms.ProgramReadBack(ParseProgram(ts).value);
  }
}
