/** From source text to syntax tree and back, and on to compiled code. */
module FrontEnd {
  import opened Ast
  import opened Tokens
  import opened Printer
  import opened Lexer
  import opened Layout
  import Grammar
  import PrintedForms
  import ParserObject
  import LexerObject
  import Decimal

  // ----- programs that can be written as text -----

  predicate LegalName(s: string) { IsIdentifier(s) }

  predicate LegalExpr(e: Expr) {
    match e
    case IntLit(_) => true
    case StrLit(s) => !('"' in s && '\'' in s)
    case Ident(name) => LegalName(name)
    case Binary(_, left, right) => LegalExpr(left) && LegalExpr(right)
    case Assign(target, value) => LegalName(target) && LegalExpr(value)
    case Call(callee, args) => LegalName(callee) && forall a :: a in args ==> LegalExpr(a)
    case ArrayLit(elems) => forall a :: a in elems ==> LegalExpr(a)
  }

  // Names are identifiers, and no string contains both kinds of quotes.
  predicate LegalStmt(s: Stmt) {
    match s
    case ExprStmt(e) => LegalExpr(e)
    case VarDecl(name, _, init) => LegalName(name) && (init.Some? ==> LegalExpr(init.value))
    case FnDecl(fname, params, body) =>
      LegalName(fname) && (forall p :: p in params ==> LegalName(p)) && forall b :: b in body ==> LegalStmt(b)
    case Block(stmts) => forall b :: b in stmts ==> LegalStmt(b)
    case If(cond, thn, els) => LegalExpr(cond) && LegalStmt(thn) && (els.Some? ==> LegalStmt(els.value))
    case Loop(count, iterVar, body) =>
      (count.Some? ==> LegalExpr(count.value)) && (iterVar.Some? ==> LegalName(iterVar.value)) && LegalStmt(body)
  }

  // Legal tokens up to the end of the file.
  predicate Lexable(ts: seq<Token>) {
    ts != [] && ts[|ts| - 1] == Symbol(TEof) && forall i :: 0 <= i < |ts| - 1 ==> Legal(ts[i])
  }

  lemma Longer(t: Token, k: seq<Token>)
    requires Legal(t) && Lexable(k)
    ensures Lexable([t] + k)
  {
    hide Legal;
  }

  lemma SignsAreLegal(op: BinOp, typ: TokenType)
    ensures Legal(Token(TOperator, OperatorText(op)))
    ensures typ !in {TEof, TInt, TString, TOperator, TIdent} ==> Legal(Symbol(typ))
  {
  }

  lemma LongerBySign(typ: TokenType, k: seq<Token>)
    requires typ !in {TEof, TInt, TString, TOperator, TIdent} && Lexable(k)
    ensures Lexable([Symbol(typ)] + k)
  {
    hide Legal, Lexable;
    SignsAreLegal(Plus, typ);
    Longer(Symbol(typ), k);
  }

  lemma LongerByName(s: string, k: seq<Token>)
    requires LegalName(s) && Lexable(k)
    ensures Lexable([Name(s)] + k)
  {
    hide Lexable, IsIdentifier;
    Longer(Name(s), k);
  }

  lemma {:induction false} ExprLexable(e: Expr, level: nat, k: seq<Token>)
    requires WfExpr(e) && LegalExpr(e) && Lexable(k)
    ensures Lexable(ExprTokens(e, level, k))
    decreases e, 1
  {
    hide Lexable, Symbol, BareTokens;
    if Level(e) < level {
      LongerBySign(TParenClose, k);
      BareLexable(e, [Symbol(TParenClose)] + k);
      LongerBySign(TParenOpen, BareTokens(e, [Symbol(TParenClose)] + k));
    } else {
      BareLexable(e, k);
    }
  }

  lemma {:induction false} BareLexable(e: Expr, k: seq<Token>)
    requires WfExpr(e) && LegalExpr(e) && Lexable(k)
    ensures Lexable(BareTokens(e, k))
    decreases e, 0
  {
    hide Lexable, Symbol, ExprTokens, ListTokens, LegalName;
    match e
    case IntLit(n) =>
      Decimal.ValueOfUnsigned(n);
      Longer(Token(TInt, Decimal.Signed(n)), k);
    case StrLit(s) =>
      Longer(Token(TString, s), k);
    case Ident(name) =>
      LongerByName(name, k);
    case Binary(op, left, right) =>
      var k1 := ExprTokens(right, OperatorLevel(op) + 1, k);
      ExprLexable(right, OperatorLevel(op) + 1, k);
      SignsAreLegal(op, TComma);
      Longer(Token(TOperator, OperatorText(op)), k1);
      ExprLexable(left, OperatorLevel(op), [Token(TOperator, OperatorText(op))] + k1);
    case Assign(target, value) =>
      ExprLexable(value, 0, k);
      LongerBySign(TAssign, ExprTokens(value, 0, k));
      LongerByName(target, [Symbol(TAssign)] + ExprTokens(value, 0, k));
      assert BareTokens(e, k) == [Name(target)] + ([Symbol(TAssign)] + ExprTokens(value, 0, k));
    case Call(callee, args) =>
      LongerBySign(TParenClose, k);
      var k1 := ListTokens(args, [Symbol(TParenClose)] + k);
      ListLexable(args, [Symbol(TParenClose)] + k);
      LongerBySign(TParenOpen, k1);
      LongerByName(callee, [Symbol(TParenOpen)] + k1);
      assert BareTokens(e, k) == [Name(callee)] + ([Symbol(TParenOpen)] + k1);
    case ArrayLit(elems) =>
      LongerBySign(TSquareClose, k);
      var k1 := ListTokens(elems, [Symbol(TSquareClose)] + k);
      ListLexable(elems, [Symbol(TSquareClose)] + k);
      LongerBySign(TSquareOpen, k1);
      LongerBySign(TArray, [Symbol(TSquareOpen)] + k1);
      assert BareTokens(e, k) == [Symbol(TArray)] + ([Symbol(TSquareOpen)] + k1);
  }

  lemma {:induction false} ListLexable(es: seq<Expr>, k: seq<Token>)
    requires (forall e :: e in es ==> WfExpr(e) && LegalExpr(e)) && Lexable(k)
    ensures Lexable(ListTokens(es, k))
    decreases es, 2
  {
    hide Lexable, Symbol, ExprTokens;
    if |es| == 1 {
      ExprLexable(es[0], 0, k);
    } else if |es| > 1 {
      ListLexable(es[1..], k);
      LongerBySign(TComma, ListTokens(es[1..], k));
      ExprLexable(es[0], 0, [Symbol(TComma)] + ListTokens(es[1..], k));
    }
  }

  lemma {:induction false} NamesLexable(names: seq<string>, k: seq<Token>)
    requires (forall n :: n in names ==> LegalName(n)) && Lexable(k)
    ensures Lexable(NameTokens(names, k))
  {
    hide Lexable, Symbol, LegalName;
    if |names| == 1 {
      LongerByName(names[0], k);
    } else if |names| > 1 {
      var k1 := NameTokens(names[1..], k);
      NamesLexable(names[1..], k);
      LongerBySign(TComma, k1);
      LongerByName(names[0], [Symbol(TComma)] + k1);
      assert NameTokens(names, k) == [Name(names[0])] + ([Symbol(TComma)] + k1);
    }
  }

  lemma VarDeclLexable(s: Stmt, k: seq<Token>)
    requires s.VarDecl? && WfStmt(s) && LegalStmt(s) && Lexable(k)
    ensures Lexable(StmtTokens(s, k))
  {
    hide Lexable, Symbol, ExprTokens, LegalName;
    var k1 := [Symbol(TSemicolon)] + k;
    LongerBySign(TSemicolon, k);
    var word := if s.isConst then TConst else TVar;
    var k2 := if s.init.None? then k1 else [Symbol(TAssign)] + ExprTokens(s.init.value, 0, k1);
    if s.init.Some? {
      ExprLexable(s.init.value, 0, k1);
      LongerBySign(TAssign, ExprTokens(s.init.value, 0, k1));
    }
    LongerByName(s.name, k2);
    LongerBySign(word, [Name(s.name)] + k2);
    assert StmtTokens(s, k) == [Symbol(word)] + ([Name(s.name)] + k2);
  }

  lemma {:induction false} FnDeclLexable(s: Stmt, k: seq<Token>)
    requires s.FnDecl? && WfStmt(s) && LegalStmt(s) && Lexable(k)
    ensures Lexable(StmtTokens(s, k))
    decreases s, 0
  {
    hide Lexable, Symbol, NameTokens, StmtsTokens, LegalName;
    LongerBySign(TBraceClose, k);
    var k1 := StmtsTokens(s.body, [Symbol(TBraceClose)] + k);
    StmtsLexable(s.body, [Symbol(TBraceClose)] + k);
    LongerBySign(TBraceOpen, k1);
    LongerBySign(TParenClose, [Symbol(TBraceOpen)] + k1);
    var k2 := [Symbol(TParenClose), Symbol(TBraceOpen)] + k1;
    assert k2 == [Symbol(TParenClose)] + ([Symbol(TBraceOpen)] + k1);
    NamesLexable(s.params, k2);
    var k3 := NameTokens(s.params, k2);
    LongerBySign(TParenOpen, k3);
    LongerByName(s.fname, [Symbol(TParenOpen)] + k3);
    LongerBySign(TFunction, [Name(s.fname)] + ([Symbol(TParenOpen)] + k3));
    assert StmtTokens(s, k) == [Symbol(TFunction)] + ([Name(s.fname)] + ([Symbol(TParenOpen)] + k3));
  }

  // What follows the condition of an if.
  function Branches(s: Stmt, k: seq<Token>): seq<Token>
    requires s.If?
  {
    StmtTokens(s.thn, if s.els.None? then k else [Symbol(TElse)] + StmtTokens(s.els.value, k))
  }

  lemma {:induction false} BranchesLexable(s: Stmt, k: seq<Token>)
    requires s.If? && WfStmt(s) && LegalStmt(s) && Lexable(k)
    ensures Lexable(Branches(s, k))
    decreases s, 0
  {
    hide Lexable, Symbol, StmtTokens;
    if s.els.Some? {
      StmtLexable(s.els.value, k);
      LongerBySign(TElse, StmtTokens(s.els.value, k));
    }
    StmtLexable(s.thn, if s.els.None? then k else [Symbol(TElse)] + StmtTokens(s.els.value, k));
  }

  lemma IfTokens(s: Stmt, k: seq<Token>)
    requires s.If?
    ensures StmtTokens(s, k) ==
            [Symbol(TIf)] + ([Symbol(TParenOpen)] + ExprTokens(s.cond, 0, [Symbol(TParenClose)] + Branches(s, k)))
  {
    hide ExprTokens, Symbol;
  }

  lemma {:induction false} IfLexable(s: Stmt, k: seq<Token>)
    requires s.If? && WfStmt(s) && LegalStmt(s) && Lexable(k)
    ensures Lexable(StmtTokens(s, k))
    decreases s, 1
  {
    hide Lexable, Symbol, ExprTokens, StmtTokens, Branches;
    var k1 := Branches(s, k);
    BranchesLexable(s, k);
    LongerBySign(TParenClose, k1);
    var k2 := ExprTokens(s.cond, 0, [Symbol(TParenClose)] + k1);
    ExprLexable(s.cond, 0, [Symbol(TParenClose)] + k1);
    LongerBySign(TParenOpen, k2);
    LongerBySign(TIf, [Symbol(TParenOpen)] + k2);
    IfTokens(s, k);
  }

  lemma {:induction false} LoopLexable(s: Stmt, k: seq<Token>)
    requires s.Loop? && WfStmt(s) && LegalStmt(s) && Lexable(k)
    ensures Lexable(StmtTokens(s, k))
    decreases s, 0
  {
    hide Lexable, Symbol, ExprTokens, LegalName;
    var k1 := LoopBodyTokens(s.count, s.iterVar, s.loopBody, k);
    if Shielded(s.count, s.iterVar, s.loopBody) {
      LongerBySign(TSemicolon, k);
      ExprLexable(s.loopBody.e, 5, [Symbol(TSemicolon)] + k);
    } else {
      StmtLexable(s.loopBody, k);
    }
    HeadLexable(s.count, s.iterVar, k1);
    LongerBySign(TLoop, LoopHead(s.count, s.iterVar, k1));
  }

  lemma HeadLexable(count: Option<Expr>, iterVar: Option<string>, k: seq<Token>)
    requires (count.Some? ==> WfExpr(count.value) && LegalExpr(count.value)) && (iterVar.Some? ==> LegalName(iterVar.value))
    requires Lexable(k)
    ensures Lexable(LoopHead(count, iterVar, k))
  {
    hide Lexable, Symbol, ExprTokens, LegalName;
    var named := if iterVar.None? then k else [Name(iterVar.value)] + k;
    if iterVar.Some? {
      LongerByName(iterVar.value, k);
    }
    if count.Some? {
      LongerBySign(TParenClose, named);
      ExprLexable(count.value, 0, [Symbol(TParenClose)] + named);
      LongerBySign(TParenOpen, ExprTokens(count.value, 0, [Symbol(TParenClose)] + named));
    }
  }

  lemma {:induction false} StmtLexable(s: Stmt, k: seq<Token>)
    requires WfStmt(s) && LegalStmt(s) && Lexable(k)
    ensures Lexable(StmtTokens(s, k))
    decreases s, 2
  {
    hide Lexable, Symbol, ExprTokens, StmtsTokens;
    match s
    case ExprStmt(e) =>
      LongerBySign(TSemicolon, k);
      ExprLexable(e, 0, [Symbol(TSemicolon)] + k);
    case VarDecl(_, _, _) =>
      VarDeclLexable(s, k);
    case FnDecl(_, _, _) =>
      FnDeclLexable(s, k);
    case Block(stmts) =>
      LongerBySign(TBraceClose, k);
      StmtsLexable(stmts, [Symbol(TBraceClose)] + k);
      LongerBySign(TBraceOpen, StmtsTokens(stmts, [Symbol(TBraceClose)] + k));
    case If(_, _, _) =>
      IfLexable(s, k);
    case Loop(_, _, _) =>
      LoopLexable(s, k);
  }

  lemma {:induction false} StmtsLexable(ss: seq<Stmt>, k: seq<Token>)
    requires (forall s :: s in ss ==> WfStmt(s) && LegalStmt(s)) && Lexable(k)
    ensures Lexable(StmtsTokens(ss, k))
    decreases ss, 3
  {
    hide Lexable, StmtTokens;
    if ss != [] {
      StmtsLexable(ss[1..], k);
      StmtLexable(ss[0], StmtsTokens(ss[1..], k));
    }
  }

  // ----- text and tree -----

  // A program as a source text, one space behind each token.
  function SourceOf(program: seq<Stmt>): string {
    var ts := ProgramTokens(program);
    if ts == [] then "" else Laid(Spaced(ts[..|ts| - 1]))
  }

  predicate LegalProgram(program: seq<Stmt>) {
    forall s :: s in program ==> WfStmt(s) && LegalStmt(s)
  }

  // The front end undoes printing: lexing and parsing the text of any legal program gives the
  // program.
  lemma SourceReadBack(program: seq<Stmt>)
    requires LegalProgram(program)
    ensures var lexed := Lex(SourceOf(program), START);
      && lexed.Tokenized?
      && Grammar.ParseProgram(TokensOf(lexed.tokens)) == Grammar.Ok(program, [Symbol(TEof)])
  {
    hide Lex, StmtsTokens, Legal, Grammar.ParseProgram, TokensOf, Spaced, Laid;
    var eof := [Symbol(TEof)];
    assert Lexable(eof);
    StmtsLexable(program, eof);
    var ts := ProgramTokens(program);
    RenderedReadBack(ts[..|ts| - 1]);
    assert ts[..|ts| - 1] + eof == ts;
    PrintedForms.ProgramReadBack(program);
  }

  // lex_analyze and parser_create_ast_node on the text of a program
  method ReadSource(source: string) returns (r: ParserObject.Outcome<seq<Stmt>>, readable: bool)
    ensures readable <==> Lex(source, START).Tokenized?
    ensures readable ==>
      var p := Grammar.ParseProgram(TokensOf(Lex(source, START).tokens));
      (p.Ok? ==> r == ParserObject.Parsed(p.value)) && (p.Err? ==> r == ParserObject.Stopped(p.error))
    ensures forall program :: LegalProgram(program) && source == SourceOf(program) ==> readable && r == ParserObject.Parsed(program)
  {
    hide Lex, Grammar.ParseProgram, SourceOf, LegalProgram;
    var scanner := new LexerObject.Scanner(source);
    var lexed := scanner.Analyze();
    if lexed.Failed? {
      r, readable := ParserObject.Stopped(Grammar.NoMoreTokens), false;
    } else {
      r := ParserObject.CreateAst(TokensOf(lexed.tokens));
      readable := true;
    }
    forall program | LegalProgram(program) && source == SourceOf(program)
      ensures readable && r == ParserObject.Parsed(program)
    {
      SourceReadBack(program);
    }
  }

  // The lexer ends every token list with the end-of-file token, so the assertion that guards
  // the parser's token accesses never fails.
  lemma NeverOutOfTokens(source: string)
    ensures var lexed := Lex(source, START);
      lexed.Tokenized? ==> Grammar.ParseProgram(TokensOf(lexed.tokens)) != Grammar.Err(Grammar.NoMoreTokens)
  {
    hide Lex, Grammar.ParseProgram;
    LexEndsWithEof(source, START);
  }

  lemma {:induction false} LexEndsWithEof(s: string, pos: Position)
    ensures var lexed := Lex(s, pos);
      lexed.Tokenized? ==> Grammar.Terminated(TokensOf(lexed.tokens))
    decreases |s|
  {
    hide Next;
    if s != [] && !Next(s).Unreadable? {
      var n := Next(s).len;
      LexEndsWithEof(s[n..], Advanced(pos, s[..n]));
    }
  }
}
