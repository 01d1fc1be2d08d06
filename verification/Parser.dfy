/**
  The grammar of src/parser.c as functions on the tokens that remain. Every function consumes a
  prefix of them. The parser object that moves an index over the token array is proved to
  compute these functions.
*/
module Tokens {
  datatype TokenType =
    | TSemicolon | TInt | TEof | TString | TOperator | TIdent | TParenOpen | TParenClose
    | TVar | TConst | TAssign | TComma | TFunction | TBraceOpen | TBraceClose | TPeriod
    | TSquareOpen | TSquareClose | TImport | TArray | TIf | TElse | TLoop | TAs

  datatype Token = Token(typ: TokenType, text: string)
}

module Grammar {
  import opened Ast
  import opened Tokens
  import Decimal

  // NoMoreTokens and BadInteger are failed assertions, the others are reported syntax errors.
  datatype ParseError = NoMoreTokens | BadInteger | UnexpectedEof | Unexpected(found: TokenType) | ConstWithoutValue

  datatype Parse<+T> = Ok(value: T, rest: seq<Token>) | Err(error: ParseError) {
    predicate IsFailure() { Err? }
    function PropagateFailure<U>(): Parse<U>
      requires Err?
    {
      Err(error)
    }
    function Extract(): (T, seq<Token>)
      requires Ok?
    {
      (value, rest)
    }
  }

  // The token list of a lexer run ends with an end-of-file token.
  predicate Terminated(ts: seq<Token>) { ts != [] && ts[|ts| - 1].typ == TEof }

  // Parsing makes progress and, on a terminated list, never runs out of tokens.
  ghost predicate Progress<T>(ts: seq<Token>, r: Parse<T>) {
    && (r.Ok? ==> |r.rest| < |ts|)
    && (Terminated(ts) ==> r != Err(NoMoreTokens) && (r.Ok? ==> Terminated(r.rest)))
  }

  // The same for loops, which may consume nothing.
  ghost predicate LoopProgress<T>(ts: seq<Token>, r: Parse<T>) {
    && (r.Ok? ==> |r.rest| <= |ts|)
    && (Terminated(ts) ==> r != Err(NoMoreTokens) && (r.Ok? ==> Terminated(r.rest)))
  }

  predicate AtEof(ts: seq<Token>) { ts == [] || ts[0].typ == TEof }

  predicate At(ts: seq<Token>, typ: TokenType) { ts != [] && ts[0].typ == typ }

  // parser_expect
  function Expect(ts: seq<Token>, typ: TokenType): (r: Parse<Token>)
    ensures Progress(ts, r)
    ensures r.Ok? ==> ts != [] && r.value == ts[0] && ts[0].typ == typ && r.rest == ts[1..]
  {
    if ts == [] then Err(NoMoreTokens)
    else if ts[0].typ == TEof then Err(UnexpectedEof)
    else if ts[0].typ != typ then Err(Unexpected(ts[0].typ))
    else Ok(ts[0], ts[1..])
  }

  // ----- operators -----

  // 1: comparison, 2: additive, 3: multiplicative
  predicate IsOperatorAt(level: nat, t: Token) {
    t.typ == TOperator && t.text != [] &&
    if level == 3 then t.text[0] in {'*', '/', '%'}
    else if level == 2 then t.text[0] in {'+', '-'}
    else level == 1 && (t.text[0] in {'<', '>'} || t.text in {"==", "===", "!=", "!=="})
  }

  // parser_parse_binexp_operator, on the operators that the levels above let through
  function OperatorOf(t: Token): BinOp
    requires exists level :: IsOperatorAt(level, t)
  {
    if t.text == ">=" then Ge
    else if t.text == "<=" then Le
    else if t.text == "==" then Eq
    else if t.text == "===" then EqS
    else if t.text == "!=" then Ne
    else if t.text == "!==" then NeS
    else
      match t.text[0]
      case '+' => Plus
      case '-' => Minus
      case '/' => Divide
      case '*' => Times
      case '%' => Modulus
      case '<' => Lt
      case _ => Gt
  }

  // ----- expressions -----

  // parser_parse_expr, parser_parse_assignment_expr
  function ParseExpr(ts: seq<Token>): (r: Parse<Expr>)
    ensures Progress(ts, r)
    decreases |ts|, 8
  {
    if !AtEof(ts) && |ts| > 1 && ts[1].typ == TAssign then
      var (name, ts1) :- Expect(ts, TIdent);
      var (_, ts2) :- Expect(ts1, TAssign);
      var (value, ts3) :- ParseExpr(ts2);
      if ts3 == [] then Err(NoMoreTokens) else Ok(Assign(name.text, value), ts3)
    else ParseArray(ts)
  }

  function ParseArray(ts: seq<Token>): (r: Parse<Expr>)
    ensures Progress(ts, r)
    decreases |ts|, 7
  {
    if ts == [] then Err(NoMoreTokens)
    else if ts[0].typ != TArray then ParseBinary(1, ts)
    else
      var (_, ts1) :- Expect(ts, TArray);
      var (_, ts2) :- Expect(ts1, TSquareOpen);
      var (elems, ts3) :- ParseElems(ts2);
      var (_, ts4) :- Expect(ts3, TSquareClose);
      Ok(ArrayLit(elems), ts4)
  }

  function ParseElems(ts: seq<Token>): (r: Parse<seq<Expr>>)
    ensures LoopProgress(ts, r)
    decreases |ts|, 9
  {
    if AtEof(ts) || ts[0].typ == TSquareClose then Ok([], ts)
    else
      var (e, ts1) :- ParseExpr(ts);
      if ts1 == [] then Err(NoMoreTokens)
      else if ts1[0].typ == TSquareClose then Ok([e], ts1)
      else
        var (_, ts2) :- Expect(ts1, TComma);
        var (es, ts3) :- ParseElems(ts2);
        Ok([e] + es, ts3)
  }

  // parser_parse_binexp_comparison, _additive and _multiplicative
  function ParseBinary(level: nat, ts: seq<Token>): (r: Parse<Expr>)
    requires 1 <= level <= 3
    ensures Progress(ts, r)
    decreases |ts|, 6 - level
  {
    var (left, ts1) :- ParseOperand(level, ts);
    ParseChain(level, left, ts1)
  }

  function ParseOperand(level: nat, ts: seq<Token>): (r: Parse<Expr>)
    requires 1 <= level <= 3
    ensures Progress(ts, r)
    decreases |ts|, 6 - level, 0
  {
    if level == 3 then ParseCall(ts) else ParseBinary(level + 1, ts)
  }

  // The loop that extends a left operand.
  function ParseChain(level: nat, left: Expr, ts: seq<Token>): (r: Parse<Expr>)
    requires 1 <= level <= 3
    ensures LoopProgress(ts, r)
    decreases |ts|, 0
  {
    if ts != [] && IsOperatorAt(level, ts[0]) then
      var (right, ts1) :- ParseOperand(level, ts[1..]);
      ParseChain(level, Binary(OperatorOf(ts[0]), left, right), ts1)
    else Ok(left, ts)
  }

  function ParseCall(ts: seq<Token>): (r: Parse<Expr>)
    ensures Progress(ts, r)
    decreases |ts|, 2
  {
    if |ts| > 2 && ts[0].typ == TIdent && ts[1].typ == TParenOpen then
      var (args, ts1) :- ParseArgs(ts[2..]);
      var (_, ts2) :- Expect(ts1, TParenClose);
      if ts2 == [] then Err(NoMoreTokens) else Ok(Call(ts[0].text, args), ts2)
    else ParsePrimary(ts)
  }

  // A comma after an argument is optional.
  function ParseArgs(ts: seq<Token>): (r: Parse<seq<Expr>>)
    ensures LoopProgress(ts, r)
    decreases |ts|, 9
  {
    if AtEof(ts) || ts[0].typ == TParenClose then Ok([], ts)
    else
      var (e, ts1) :- ParseExpr(ts);
      if ts1 == [] then Err(NoMoreTokens)
      else
        var (es, ts2) :- ParseArgs(if ts1[0].typ == TComma then ts1[1..] else ts1);
        Ok([e] + es, ts2)
  }

  function ParsePrimary(ts: seq<Token>): (r: Parse<Expr>)
    ensures Progress(ts, r)
    decreases |ts|, 1
  {
    if ts == [] then Err(NoMoreTokens)
    else
      match ts[0].typ
      case TIdent => Ok(Ident(ts[0].text), ts[1..])
      case TInt =>
        if Decimal.AllDigits(ts[0].text) then Ok(IntLit(Decimal.Atoll(ts[0].text)), ts[1..]) else Err(BadInteger)
      case TString => Ok(StrLit(ts[0].text), ts[1..])
      case TParenOpen =>
        var (e, ts1) :- ParseExpr(ts[1..]);
        var (_, ts2) :- Expect(ts1, TParenClose);
        Ok(e, ts2)
      case _ => Err(Unexpected(ts[0].typ))
  }

  // ----- statements -----

  function SkipSemicolons(ts: seq<Token>): (r: Parse<()>)
    ensures LoopProgress(ts, r)
    ensures r.Ok? ==> r.rest != [] && r.rest[0].typ != TSemicolon
    ensures ts != [] && ts[0].typ != TSemicolon ==> r == Ok((), ts)
  {
    if ts == [] then Err(NoMoreTokens)
    else if ts[0].typ == TSemicolon then SkipSemicolons(ts[1..])
    else Ok((), ts)
  }

  function ParseStmt(ts: seq<Token>): (r: Parse<Stmt>)
    ensures Progress(ts, r)
    ensures r.Ok? ==> r.rest != [] && r.rest[0].typ != TSemicolon
    decreases |ts|, 11
  {
    var (s, ts1) :- ParseBareStmt(ts);
    var (_, ts2) :- SkipSemicolons(ts1);
    Ok(s, ts2)
  }

  // A statement up to its required semicolon.
  function ParseBareStmt(ts: seq<Token>): (r: Parse<Stmt>)
    ensures Progress(ts, r)
    decreases |ts|, 10
  {
    if ts == [] then Err(NoMoreTokens)
    else
      match ts[0].typ
      case TVar =>
        var (s, ts1) :- ParseVarDecl(ts);
        var (_, ts2) :- Expect(ts1, TSemicolon);
        Ok(s, ts2)
      case TConst =>
        var (s, ts1) :- ParseVarDecl(ts);
        var (_, ts2) :- Expect(ts1, TSemicolon);
        Ok(s, ts2)
      case TFunction => ParseFnDecl(ts)
      case TBraceOpen => ParseBlock(ts)
      case TIf => ParseIf(ts)
      case TLoop => ParseLoop(ts)
      case _ =>
        var (e, ts1) :- ParseExpr(ts);
        var (_, ts2) :- Expect(ts1, TSemicolon);
        Ok(ExprStmt(e), ts2)
  }

  function ParseVarDecl(ts: seq<Token>): (r: Parse<Stmt>)
    requires At(ts, TVar) || At(ts, TConst)
    ensures Progress(ts, r)
  {
    var isConst := ts[0].typ == TConst;
    var (name, ts1) :- Expect(ts[1..], TIdent);
    if ts1 == [] then Err(NoMoreTokens)
    else if ts1[0].typ == TSemicolon then
      if isConst then Err(ConstWithoutValue) else Ok(VarDecl(name.text, false, None), ts1)
    else
      var (_, ts2) :- Expect(ts1, TAssign);
      var (value, ts3) :- ParseExpr(ts2);
      if ts3 == [] then Err(NoMoreTokens) else Ok(VarDecl(name.text, isConst, Some(value)), ts3)
  }

  function ParseParams(ts: seq<Token>): (r: Parse<seq<string>>)
    ensures LoopProgress(ts, r)
    decreases |ts|
  {
    if AtEof(ts) || ts[0].typ == TParenClose then Ok([], ts)
    else
      var (name, ts1) :- Expect(ts, TIdent);
      if ts1 == [] then Err(NoMoreTokens)
      else if ts1[0].typ == TParenClose then Ok([name.text], ts1)
      else
        var (_, ts2) :- Expect(ts1, TComma);
        var (names, ts3) :- ParseParams(ts2);
        Ok([name.text] + names, ts3)
  }

  // The head of a function declaration, up to its opening brace.
  function ParseFnHead(ts: seq<Token>): (r: Parse<(string, seq<string>)>)
    ensures Progress(ts, r)
  {
    var (_, ts1) :- Expect(ts, TFunction);
    var (name, ts2) :- Expect(ts1, TIdent);
    var (_, ts3) :- Expect(ts2, TParenOpen);
    var (params, ts4) :- ParseParams(ts3);
    var (_, ts5) :- Expect(ts4, TParenClose);
    Ok((name.text, params), ts5)
  }

  function ParseFnDecl(ts: seq<Token>): (r: Parse<Stmt>)
    ensures Progress(ts, r)
    decreases |ts|, 9
  {
    var (head, ts1) :- ParseFnHead(ts);
    var (_, ts2) :- Expect(ts1, TBraceOpen);
    var (body, ts3) :- ParseStmts(ts2, true);
    var (_, ts4) :- Expect(ts3, TBraceClose);
    Ok(FnDecl(head.0, head.1, body), ts4)
  }

  function ParseBlock(ts: seq<Token>): (r: Parse<Stmt>)
    ensures Progress(ts, r)
    decreases |ts|, 9
  {
    var (_, ts1) :- Expect(ts, TBraceOpen);
    var (stmts, ts2) :- ParseStmts(ts1, true);
    var (_, ts3) :- Expect(ts2, TBraceClose);
    Ok(Block(stmts), ts3)
  }

  // Statements up to the end of the file or, inside braces, up to the closing brace.
  function ParseStmts(ts: seq<Token>, inBraces: bool): (r: Parse<seq<Stmt>>)
    ensures LoopProgress(ts, r)
    decreases |ts|, 12
  {
    if AtEof(ts) || (inBraces && ts[0].typ == TBraceClose) then Ok([], ts)
    else
      var (s, ts1) :- ParseStmt(ts);
      var (ss, ts2) :- ParseStmts(ts1, inBraces);
      Ok([s] + ss, ts2)
  }

  function ParseCondition(ts: seq<Token>): (r: Parse<Expr>)
    ensures Progress(ts, r)
  {
    var (_, ts1) :- Expect(ts, TIf);
    var (_, ts2) :- Expect(ts1, TParenOpen);
    var (cond, ts3) :- ParseExpr(ts2);
    var (_, ts4) :- Expect(ts3, TParenClose);
    Ok(cond, ts4)
  }

  function ParseIf(ts: seq<Token>): (r: Parse<Stmt>)
    ensures Progress(ts, r)
    ensures r.Ok? ==> r.rest != [] && r.rest[0].typ != TSemicolon
    decreases |ts|, 9
  {
    var (cond, ts1) :- ParseCondition(ts);
    var (thn, ts2) :- ParseStmt(ts1);
    if At(ts2, TElse) then
      var (els, ts3) :- ParseStmt(ts2[1..]);
      Ok(If(cond, thn, Some(els)), ts3)
    else Ok(If(cond, thn, None), ts2)
  }

  // `as name` behind the count of a loop, if the parenthesis does not close there.
  function ParseAsName(ts: seq<Token>): (r: Parse<Option<string>>)
    ensures LoopProgress(ts, r)
  {
    if ts == [] then Err(NoMoreTokens)
    else if ts[0].typ == TParenClose then Ok(None, ts)
    else
      var (_, ts1) :- Expect(ts, TAs);
      var (name, ts2) :- Expect(ts1, TIdent);
      Ok(Some(name.text), ts2)
  }

  // The head of a loop: its count and the name in `as name`, if any.
  function ParseLoopCount(ts: seq<Token>): (r: Parse<(Option<Expr>, Option<string>)>)
    ensures LoopProgress(ts, r)
  {
    if ts == [] then Err(NoMoreTokens)
    else if ts[0].typ != TParenOpen then Ok((None, None), ts)
    else
      var (count, ts1) :- ParseExpr(ts[1..]);
      var (name, ts2) :- ParseAsName(ts1);
      var (_, ts3) :- Expect(ts2, TParenClose);
      Ok((Some(count), name), ts3)
  }

  // An identifier in front of the body is the iteration variable and replaces an earlier one.
  function ParseLoop(ts: seq<Token>): (r: Parse<Stmt>)
    ensures Progress(ts, r)
    ensures r.Ok? ==> r.rest != [] && r.rest[0].typ != TSemicolon
    decreases |ts|, 9
  {
    var (_, ts1) :- Expect(ts, TLoop);
    var (head, ts2) :- ParseLoopCount(ts1);
    if ts2 == [] then Err(NoMoreTokens)
    else
      var (iterVar, ts3) := if ts2[0].typ == TIdent then (Some(ts2[0].text), ts2[1..]) else (head.1, ts2);
      var (body, ts4) :- ParseStmt(ts3);
      Ok(Loop(head.0, iterVar, body), ts4)
  }

  // parser_create_ast_node
  function ParseProgram(ts: seq<Token>): (r: Parse<seq<Stmt>>)
    ensures LoopProgress(ts, r)
  {
    ParseStmts(ts, false)
  }
}
