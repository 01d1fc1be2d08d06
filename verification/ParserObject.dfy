/**
  The recursive-descent parser of src/parser.c: an object that advances an index over an array
  of tokens. Each routine parses what the grammar function of the same name parses from the
  tokens at the index, and leaves the index at the rest.
*/
module ParserObject {
  import opened Ast
  import opened Tokens
  import opened Grammar
  import Decimal

  // The outcome of a routine; the rest is what the index points to.
  datatype Outcome<+T> = Parsed(value: T) | Stopped(error: ParseError)

  class Parser {
    const tokens: seq<Token>
    var index: nat

    constructor (tokens: seq<Token>)
      ensures this.tokens == tokens && index == 0
    {
      this.tokens, index := tokens, 0;
    }

    ghost predicate Valid()
      reads this
    {
      index <= |tokens|
    }

    ghost function Rest(): seq<Token>
      reads this
      requires Valid()
    {
      tokens[index..]
    }

    // The routine has returned r where the grammar prescribes p.
    ghost predicate Did<T>(p: Parse<T>, r: Outcome<T>)
      reads this
    {
      && Valid()
      && (p.Ok? ==> r == Parsed(p.value) && Rest() == p.rest)
      && (p.Err? ==> r == Stopped(p.error))
    }

    function IsEof(): (r: bool)
      reads this
      requires Valid()
      ensures r == AtEof(Rest())
    {
      index >= |tokens| || tokens[index].typ == TEof
    }

    function IsAt(typ: TokenType): (r: bool)
      reads this
      requires Valid()
      ensures r == At(Rest(), typ)
    {
      index < |tokens| && tokens[index].typ == typ
    }

    method Expected(typ: TokenType) returns (r: Outcome<Token>)
      requires Valid()
      modifies this
      ensures Did(Expect(old(Rest()), typ), r)
    {
      if index >= |tokens| {
        return Stopped(NoMoreTokens);
      }
      var token := tokens[index];
      if token.typ == TEof {
        return Stopped(UnexpectedEof);
      }
      if token.typ != typ {
        return Stopped(Unexpected(token.typ));
      }
      index := index + 1;
      r := Parsed(token);
    }

    // ----- expressions -----

    method Expression() returns (r: Outcome<Expr>)
      requires Valid()
      modifies this
      ensures Did(ParseExpr(old(Rest())), r)
      decreases |tokens| - index, 8
    {
      hide ParseArray;
      if !IsEof() && index + 1 < |tokens| && tokens[index + 1].typ == TAssign {
        var name := Expected(TIdent);
        if name.Stopped? {
          return Stopped(name.error);
        }
        var sign := Expected(TAssign);
        if sign.Stopped? {
          return Stopped(sign.error);
        }
        var value := Expression();
        if value.Stopped? {
          return Stopped(value.error);
        }
        if index >= |tokens| {
          return Stopped(NoMoreTokens);
        }
        return Parsed(Assign(name.value.text, value.value));
      }
      r := Array();
    }

    method Array() returns (r: Outcome<Expr>)
      requires Valid()
      modifies this
      ensures Did(ParseArray(old(Rest())), r)
      decreases |tokens| - index, 7
    {
      hide Terminated, ParseBinary, ParseElems;
      if index >= |tokens| {
        return Stopped(NoMoreTokens);
      }
      if tokens[index].typ != TArray {
        r := Comparison();
        return;
      }
      var word := Expected(TArray);
      var open := Expected(TSquareOpen);
      if open.Stopped? {
        return Stopped(open.error);
      }
      var elems := Elements();
      if elems.Stopped? {
        return Stopped(elems.error);
      }
      var close := Expected(TSquareClose);
      if close.Stopped? {
        return Stopped(close.error);
      }
      r := Parsed(ArrayLit(elems.value));
    }

    // The outcome of a list loop that has already parsed es.
    ghost function After<T>(es: seq<T>, p: Parse<seq<T>>): Parse<seq<T>> {
      if p.Ok? then Ok(es + p.value, p.rest) else p
    }

    lemma AfterSplits<T>(es: seq<T>, e: T, p: Parse<seq<T>>)
      ensures After([], p) == p && After(es, After([e], p)) == After(es + [e], p)
    {
      if p.Ok? {
        assert [] + p.value == p.value && es + ([e] + p.value) == es + [e] + p.value;
      }
    }

    method Elements() returns (r: Outcome<seq<Expr>>)
      requires Valid()
      modifies this
      ensures Did(ParseElems(old(Rest())), r)
      decreases |tokens| - index, 9
    {
      hide Terminated, ParseExpr;
      var es: seq<Expr> := [];
      AfterSplits([], IntLit(0), ParseElems(Rest()));
      while !IsEof() && !IsAt(TSquareClose)
        invariant Valid() && index >= old(index)
        invariant ParseElems(old(Rest())) == After(es, ParseElems(Rest()))
        decreases |tokens| - index
      {
        ghost var ts := Rest();
        var e := Expression();
        if e.Stopped? {
          return Stopped(e.error);
        }
        if index >= |tokens| {
          return Stopped(NoMoreTokens);
        }
        if IsAt(TSquareClose) {
          assert ParseElems(ts) == Ok([e.value], Rest());
          return Parsed(es + [e.value]);
        }
        var comma := Expected(TComma);
        if comma.Stopped? {
          return Stopped(comma.error);
        }
        assert ParseElems(ts) == After([e.value], ParseElems(Rest()));
        AfterSplits(es, e.value, ParseElems(Rest()));
        es := es + [e.value];
      }
      assert es + [] == es;
      r := Parsed(es);
    }

    method Comparison() returns (r: Outcome<Expr>)
      requires Valid()
      modifies this
      ensures Did(ParseBinary(1, old(Rest())), r)
      decreases |tokens| - index, 6
    {
      hide ParseBinary, ParseChain, ParseCall, ParseOperand, IsOperatorAt, OperatorOf;
      r := Additive();
      ChainStarts(1, old(Rest()));
      while r.Parsed? && index < |tokens| && IsOperatorAt(1, tokens[index])
        invariant Valid() && (r.Parsed? ==> index > old(index))
        invariant r.Parsed? ==> ParseBinary(1, old(Rest())) == ParseChain(1, r.value, Rest())
        invariant r.Stopped? ==> ParseBinary(1, old(Rest())) == Err(r.error)
        decreases r.Parsed?, |tokens| - index
      {
        var op, left := OperatorOf(tokens[index]), r.value;
        ChainContinues(1, left, Rest());
        assert Rest()[1..] == tokens[index + 1..];
        index := index + 1;
        var right := Additive();
        r := if right.Parsed? then Parsed(Binary(op, left, right.value)) else right;
      }
      if r.Parsed? {
        ChainEnds(1, r.value, Rest());
      }
    }

    method Additive() returns (r: Outcome<Expr>)
      requires Valid()
      modifies this
      ensures Did(ParseBinary(2, old(Rest())), r)
      decreases |tokens| - index, 5
    {
      hide ParseBinary, ParseChain, ParseCall, ParseOperand, IsOperatorAt, OperatorOf;
      r := Multiplicative();
      ChainStarts(2, old(Rest()));
      while r.Parsed? && index < |tokens| && IsOperatorAt(2, tokens[index])
        invariant Valid() && (r.Parsed? ==> index > old(index))
        invariant r.Parsed? ==> ParseBinary(2, old(Rest())) == ParseChain(2, r.value, Rest())
        invariant r.Stopped? ==> ParseBinary(2, old(Rest())) == Err(r.error)
        decreases r.Parsed?, |tokens| - index
      {
        var op, left := OperatorOf(tokens[index]), r.value;
        ChainContinues(2, left, Rest());
        assert Rest()[1..] == tokens[index + 1..];
        index := index + 1;
        var right := Multiplicative();
        r := if right.Parsed? then Parsed(Binary(op, left, right.value)) else right;
      }
      if r.Parsed? {
        ChainEnds(2, r.value, Rest());
      }
    }

    method Multiplicative() returns (r: Outcome<Expr>)
      requires Valid()
      modifies this
      ensures Did(ParseBinary(3, old(Rest())), r)
      decreases |tokens| - index, 4
    {
      hide ParseBinary, ParseChain, ParseCall, ParseOperand, IsOperatorAt, OperatorOf;
      r := CallExpression();
      ChainStarts(3, old(Rest()));
      while r.Parsed? && index < |tokens| && IsOperatorAt(3, tokens[index])
        invariant Valid() && (r.Parsed? ==> index > old(index))
        invariant r.Parsed? ==> ParseBinary(3, old(Rest())) == ParseChain(3, r.value, Rest())
        invariant r.Stopped? ==> ParseBinary(3, old(Rest())) == Err(r.error)
        decreases r.Parsed?, |tokens| - index
      {
        var op, left := OperatorOf(tokens[index]), r.value;
        ChainContinues(3, left, Rest());
        assert Rest()[1..] == tokens[index + 1..];
        index := index + 1;
        var right := CallExpression();
        r := if right.Parsed? then Parsed(Binary(op, left, right.value)) else right;
      }
      if r.Parsed? {
        ChainEnds(3, r.value, Rest());
      }
    }

    ghost function Operand(level: nat, ts: seq<Token>): (r: Parse<Expr>)
      requires 1 <= level <= 3
      ensures r == ParseOperand(level, ts)
    {
      if level == 3 then ParseCall(ts) else ParseBinary(level + 1, ts)
    }

    lemma ChainStarts(level: nat, ts: seq<Token>)
      requires 1 <= level <= 3
      ensures var r := Operand(level, ts);
        ParseBinary(level, ts) == if r.Ok? then ParseChain(level, r.value, r.rest) else r
    {
      hide ParseChain;
    }

    lemma ChainContinues(level: nat, left: Expr, ts: seq<Token>)
      requires 1 <= level <= 3 && ts != [] && IsOperatorAt(level, ts[0])
      ensures var r := Operand(level, ts[1..]);
        ParseChain(level, left, ts) == if r.Ok? then ParseChain(level, Binary(OperatorOf(ts[0]), left, r.value), r.rest) else r
    {
      hide ParseBinary, ParseCall, IsOperatorAt;
    }

    lemma ChainEnds(level: nat, left: Expr, ts: seq<Token>)
      requires 1 <= level <= 3 && !(ts != [] && IsOperatorAt(level, ts[0]))
      ensures ParseChain(level, left, ts) == Ok(left, ts)
    {
      hide IsOperatorAt;
    }

    method CallExpression() returns (r: Outcome<Expr>)
      requires Valid()
      modifies this
      ensures Did(ParseCall(old(Rest())), r)
      decreases |tokens| - index, 2
    {
      hide ParseArgs, ParsePrimary;
      if |tokens| > index + 2 && tokens[index].typ == TIdent && tokens[index + 1].typ == TParenOpen {
        var name := Expected(TIdent);
        var open := Expected(TParenOpen);
        var args := Arguments();
        if args.Stopped? {
          return Stopped(args.error);
        }
        var close := Expected(TParenClose);
        if close.Stopped? {
          return Stopped(close.error);
        }
        if index >= |tokens| {
          return Stopped(NoMoreTokens);
        }
        return Parsed(Call(name.value.text, args.value));
      }
      r := Primary();
    }

    method Arguments() returns (r: Outcome<seq<Expr>>)
      requires Valid()
      modifies this
      ensures Did(ParseArgs(old(Rest())), r)
      decreases |tokens| - index, 9
    {
      hide ParseExpr, LoopProgress, Terminated;
      var es: seq<Expr> := [];
      AfterSplits([], IntLit(0), ParseArgs(Rest()));
      while !IsEof() && !IsAt(TParenClose)
        invariant Valid() && index >= old(index)
        invariant ParseArgs(old(Rest())) == After(es, ParseArgs(Rest()))
        decreases |tokens| - index
      {
        ghost var ts := Rest();
        var e := Expression();
        if e.Stopped? {
          return Stopped(e.error);
        }
        if index >= |tokens| {
          return Stopped(NoMoreTokens);
        }
        if IsAt(TComma) {
          var comma := Expected(TComma);
        }
        assert ParseArgs(ts) == After([e.value], ParseArgs(Rest()));
        AfterSplits(es, e.value, ParseArgs(Rest()));
        es := es + [e.value];
      }
      assert es + [] == es;
      r := Parsed(es);
    }

    method Primary() returns (r: Outcome<Expr>)
      requires Valid()
      modifies this
      ensures Did(ParsePrimary(old(Rest())), r)
      decreases |tokens| - index, 1
    {
      hide ParseExpr;
      if index >= |tokens| {
        return Stopped(NoMoreTokens);
      }
      var token := tokens[index];
      match token.typ
      case TIdent =>
        index := index + 1;
        r := Parsed(Ident(token.text));
      case TInt =>
        index := index + 1;
        r := if Decimal.AllDigits(token.text) then Parsed(IntLit(Decimal.Atoll(token.text))) else Stopped(BadInteger);
      case TString =>
        index := index + 1;
        r := Parsed(StrLit(token.text));
      case TParenOpen =>
        index := index + 1;
        assert Rest() == old(Rest())[1..];
        r := Expression();
        if r.Stopped? {
          return;
        }
        var close := Expected(TParenClose);
        if close.Stopped? {
          return Stopped(close.error);
        }
      case _ =>
        r := Stopped(Unexpected(token.typ));
    }

    // ----- statements -----

    method Statement() returns (r: Outcome<Stmt>)
      requires Valid()
      modifies this
      ensures Did(ParseStmt(old(Rest())), r)
      decreases |tokens| - index, 11
    {
      hide Terminated, ParseBareStmt;
      r := BareStatement();
      if r.Stopped? {
        return;
      }
      while IsAt(TSemicolon)
        invariant Valid() && index >= old(index)
        invariant SkipSemicolons(ParseBareStmt(old(Rest())).rest) == SkipSemicolons(Rest())
        decreases |tokens| - index
      {
        assert Rest()[1..] == tokens[index + 1..];
        index := index + 1;
      }
      if index >= |tokens| {
        return Stopped(NoMoreTokens);
      }
    }

    method BareStatement() returns (r: Outcome<Stmt>)
      requires Valid()
      modifies this
      ensures Did(ParseBareStmt(old(Rest())), r)
      decreases |tokens| - index, 10
    {
      hide Terminated, ParseExpr, ParseVarDecl, ParseFnDecl, ParseBlock, ParseIf, ParseLoop, Expect;
      if index >= |tokens| {
        return Stopped(NoMoreTokens);
      }
      if IsAt(TFunction) {
        r := FunctionDeclaration();
      } else if IsAt(TBraceOpen) {
        r := BlockStatement();
      } else if IsAt(TIf) {
        r := IfStatement();
      } else if IsAt(TLoop) {
        r := LoopStatement();
      } else {
        if IsAt(TVar) || IsAt(TConst) {
          r := VariableDeclaration();
        } else {
          var e := Expression();
          r := if e.Parsed? then Parsed(ExprStmt(e.value)) else Stopped(e.error);
        }
        if r.Parsed? {
          var semicolon := Expected(TSemicolon);
          if semicolon.Stopped? {
            r := Stopped(semicolon.error);
          }
        }
      }
    }

    method VariableDeclaration() returns (r: Outcome<Stmt>)
      requires Valid() && (At(Rest(), TVar) || At(Rest(), TConst))
      modifies this
      ensures Did(ParseVarDecl(old(Rest())), r)
    {
      hide Terminated, ParseExpr;
      var isConst := tokens[index].typ == TConst;
      index := index + 1;
      assert Rest() == old(Rest())[1..];
      var name := Expected(TIdent);
      if name.Stopped? {
        return Stopped(name.error);
      }
      if index >= |tokens| {
        return Stopped(NoMoreTokens);
      }
      if IsAt(TSemicolon) {
        if isConst {
          return Stopped(ConstWithoutValue);
        }
        return Parsed(VarDecl(name.value.text, false, None));
      }
      var sign := Expected(TAssign);
      if sign.Stopped? {
        return Stopped(sign.error);
      }
      var value := Expression();
      if value.Stopped? {
        return Stopped(value.error);
      }
      if index >= |tokens| {
        return Stopped(NoMoreTokens);
      }
      r := Parsed(VarDecl(name.value.text, isConst, Some(value.value)));
    }

    method Parameters() returns (r: Outcome<seq<string>>)
      requires Valid()
      modifies this
      ensures Did(ParseParams(old(Rest())), r)
    {
      hide Terminated;
      var names: seq<string> := [];
      AfterSplits([], "", ParseParams(Rest()));
      while !IsEof() && !IsAt(TParenClose)
        invariant Valid() && index >= old(index)
        invariant ParseParams(old(Rest())) == After(names, ParseParams(Rest()))
        decreases |tokens| - index
      {
        ghost var ts := Rest();
        var name := Expected(TIdent);
        if name.Stopped? {
          return Stopped(name.error);
        }
        if index >= |tokens| {
          return Stopped(NoMoreTokens);
        }
        if IsAt(TParenClose) {
          assert ParseParams(ts) == Ok([name.value.text], Rest());
          return Parsed(names + [name.value.text]);
        }
        var comma := Expected(TComma);
        if comma.Stopped? {
          return Stopped(comma.error);
        }
        assert ParseParams(ts) == After([name.value.text], ParseParams(Rest()));
        AfterSplits(names, name.value.text, ParseParams(Rest()));
        names := names + [name.value.text];
      }
      assert names + [] == names;
      r := Parsed(names);
    }

    method FunctionHead() returns (r: Outcome<(string, seq<string>)>)
      requires Valid()
      modifies this
      ensures Did(ParseFnHead(old(Rest())), r)
    {
      hide Terminated, ParseParams, Expect, Progress, LoopProgress;
      var word := Expected(TFunction);
      if word.Stopped? {
        return Stopped(word.error);
      }
      var name := Expected(TIdent);
      if name.Stopped? {
        return Stopped(name.error);
      }
      var open := Expected(TParenOpen);
      if open.Stopped? {
        return Stopped(open.error);
      }
      var params := Parameters();
      if params.Stopped? {
        return Stopped(params.error);
      }
      var close := Expected(TParenClose);
      if close.Stopped? {
        return Stopped(close.error);
      }
      r := Parsed((name.value.text, params.value));
    }

    method FunctionDeclaration() returns (r: Outcome<Stmt>)
      requires Valid()
      modifies this
      ensures Did(ParseFnDecl(old(Rest())), r)
      decreases |tokens| - index, 9
    {
      hide Terminated, ParseFnHead, ParseStmts, Expect;
      var head := FunctionHead();
      if head.Stopped? {
        return Stopped(head.error);
      }
      var brace := Expected(TBraceOpen);
      if brace.Stopped? {
        return Stopped(brace.error);
      }
      var body := Statements(true);
      if body.Stopped? {
        return Stopped(body.error);
      }
      var end := Expected(TBraceClose);
      if end.Stopped? {
        return Stopped(end.error);
      }
      r := Parsed(FnDecl(head.value.0, head.value.1, body.value));
    }

    method BlockStatement() returns (r: Outcome<Stmt>)
      requires Valid()
      modifies this
      ensures Did(ParseBlock(old(Rest())), r)
      decreases |tokens| - index, 9
    {
      hide Terminated, ParseStmts, Expect;
      var brace := Expected(TBraceOpen);
      if brace.Stopped? {
        return Stopped(brace.error);
      }
      var stmts := Statements(true);
      if stmts.Stopped? {
        return Stopped(stmts.error);
      }
      var end := Expected(TBraceClose);
      if end.Stopped? {
        return Stopped(end.error);
      }
      r := Parsed(Block(stmts.value));
    }

    // The loops over statements in blocks, in function bodies and in the file.
    method Statements(inBraces: bool) returns (r: Outcome<seq<Stmt>>)
      requires Valid()
      modifies this
      ensures Did(ParseStmts(old(Rest()), inBraces), r)
      decreases |tokens| - index, 12
    {
      hide Terminated, ParseStmt;
      var ss: seq<Stmt> := [];
      AfterSplits([], Block([]), ParseStmts(Rest(), inBraces));
      while !IsEof() && !(inBraces && IsAt(TBraceClose))
        invariant Valid() && index >= old(index)
        invariant ParseStmts(old(Rest()), inBraces) == After(ss, ParseStmts(Rest(), inBraces))
        decreases |tokens| - index
      {
        ghost var ts := Rest();
        var s := Statement();
        if s.Stopped? {
          return Stopped(s.error);
        }
        assert ParseStmts(ts, inBraces) == After([s.value], ParseStmts(Rest(), inBraces));
        AfterSplits(ss, s.value, ParseStmts(Rest(), inBraces));
        ss := ss + [s.value];
      }
      assert ss + [] == ss;
      r := Parsed(ss);
    }

    method Condition() returns (r: Outcome<Expr>)
      requires Valid()
      modifies this
      ensures Did(ParseCondition(old(Rest())), r)
    {
      hide Terminated, ParseExpr, Expect;
      var word := Expected(TIf);
      if word.Stopped? {
        return Stopped(word.error);
      }
      var open := Expected(TParenOpen);
      if open.Stopped? {
        return Stopped(open.error);
      }
      r := Expression();
      if r.Stopped? {
        return;
      }
      var close := Expected(TParenClose);
      if close.Stopped? {
        return Stopped(close.error);
      }
    }

    method IfStatement() returns (r: Outcome<Stmt>)
      requires Valid()
      modifies this
      ensures Did(ParseIf(old(Rest())), r)
      decreases |tokens| - index, 9
    {
      hide Terminated, ParseCondition, ParseStmt;
      var cond := Condition();
      if cond.Stopped? {
        return Stopped(cond.error);
      }
      var thn := Statement();
      if thn.Stopped? {
        return thn;
      }
      if IsAt(TElse) {
        assert Rest()[1..] == tokens[index + 1..];
        index := index + 1;
        var els := Statement();
        if els.Stopped? {
          return els;
        }
        return Parsed(If(cond.value, thn.value, Some(els.value)));
      }
      r := Parsed(If(cond.value, thn.value, None));
    }

    method AsName() returns (r: Outcome<Option<string>>)
      requires Valid()
      modifies this
      ensures Did(ParseAsName(old(Rest())), r)
    {
      hide Terminated, Expect;
      if index >= |tokens| {
        return Stopped(NoMoreTokens);
      }
      if IsAt(TParenClose) {
        return Parsed(None);
      }
      var word := Expected(TAs);
      if word.Stopped? {
        return Stopped(word.error);
      }
      var name := Expected(TIdent);
      if name.Stopped? {
        return Stopped(name.error);
      }
      r := Parsed(Some(name.value.text));
    }

    method LoopCount() returns (r: Outcome<(Option<Expr>, Option<string>)>)
      requires Valid()
      modifies this
      ensures Did(ParseLoopCount(old(Rest())), r)
    {
      hide Terminated, ParseExpr, ParseAsName, Expect;
      if index >= |tokens| {
        return Stopped(NoMoreTokens);
      }
      if !IsAt(TParenOpen) {
        return Parsed((None, None));
      }
      assert Rest()[1..] == tokens[index + 1..];
      index := index + 1;
      var count := Expression();
      if count.Stopped? {
        return Stopped(count.error);
      }
      var name := AsName();
      if name.Stopped? {
        return Stopped(name.error);
      }
      var close := Expected(TParenClose);
      if close.Stopped? {
        return Stopped(close.error);
      }
      r := Parsed((Some(count.value), name.value));
    }

    method LoopStatement() returns (r: Outcome<Stmt>)
      requires Valid()
      modifies this
      ensures Did(ParseLoop(old(Rest())), r)
      decreases |tokens| - index, 9
    {
      hide Terminated, ParseLoopCount, ParseStmt;
      var word := Expected(TLoop);
      if word.Stopped? {
        return Stopped(word.error);
      }
      var head := LoopCount();
      if head.Stopped? {
        return Stopped(head.error);
      }
      if index >= |tokens| {
        return Stopped(NoMoreTokens);
      }
      var iterVar := head.value.1;
      if IsAt(TIdent) {
        var name := Expected(TIdent);
        iterVar := Some(name.value.text);
      }
      var body := Statement();
      if body.Stopped? {
        return body;
      }
      r := Parsed(Loop(head.value.0, iterVar, body.value));
    }
  }

  // parser_create_ast_node on the tokens of a file
  method CreateAst(tokens: seq<Token>) returns (r: Outcome<seq<Stmt>>)
    ensures var p := ParseProgram(tokens);
      (p.Ok? ==> r == Parsed(p.value)) && (p.Err? ==> r == Stopped(p.error))
  {
    hide ParseStmts;
    var parser := new Parser(tokens);
    assert parser.Rest() == tokens;
    r := parser.Statements(false);
  }
}
