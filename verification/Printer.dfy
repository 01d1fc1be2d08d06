/**
  The inverse of the parser: programs as tokens, with as few parentheses as the grammar allows
  (proved in Parentheses).
  Each function puts the tokens of its argument in front of k, the tokens that follow.
*/
module Printer {
  import opened Ast
  import opened Tokens
  import Decimal

  function OperatorText(op: BinOp): string {
    match op
    case Plus => "+"
    case Minus => "-"
    case Divide => "/"
    case Times => "*"
    case Modulus => "%"
    case Lt => "<"
    case Gt => ">"
    case Ge => ">="
    case Le => "<="
    case Eq => "=="
    case EqS => "==="
    case Ne => "!="
    case NeS => "!=="
  }

  function OperatorLevel(op: BinOp): (level: nat)
    ensures 1 <= level <= 3
  {
    match op
    case Plus => 2
    case Minus => 2
    case Divide => 3
    case Times => 3
    case Modulus => 3
    case _ => 1
  }

  // 0 for what only a whole expression can be, 4 for what any operand can be
  function Level(e: Expr): (level: nat)
    ensures level <= 4
  {
    match e
    case Assign(_, _) => 0
    case ArrayLit(_) => 0
    case Binary(op, _, _) => OperatorLevel(op)
    case _ => 4
  }

  function Symbol(typ: TokenType): (t: Token)
    ensures t.typ == typ
  {
    Token(typ,
      match typ
      case TSemicolon => ";"
      case TParenOpen => "("
      case TParenClose => ")"
      case TVar => "var"
      case TConst => "const"
      case TAssign => "="
      case TComma => ","
      case TFunction => "function"
      case TBraceOpen => "{"
      case TBraceClose => "}"
      case TPeriod => "."
      case TSquareOpen => "["
      case TSquareClose => "]"
      case TImport => "import"
      case TArray => "array"
      case TIf => "if"
      case TElse => "else"
      case TLoop => "loop"
      case TAs => "as"
      case _ => "[EOF]")
  }

  function Name(s: string): Token { Token(TIdent, s) }

  // ----- expressions -----

  // An expression where an operand of the given level is expected.
  function ExprTokens(e: Expr, level: nat, k: seq<Token>): seq<Token>
    decreases e, 1
  {
    if Level(e) < level then [Symbol(TParenOpen)] + BareTokens(e, [Symbol(TParenClose)] + k) else BareTokens(e, k)
  }

  function BareTokens(e: Expr, k: seq<Token>): seq<Token>
    decreases e, 0
  {
    match e
    case IntLit(n) => [Token(TInt, Decimal.Signed(n))] + k
    case StrLit(s) => [Token(TString, s)] + k
    case Ident(name) => [Name(name)] + k
    case Binary(op, left, right) =>
      ExprTokens(left, OperatorLevel(op),
                 [Token(TOperator, OperatorText(op))] + ExprTokens(right, OperatorLevel(op) + 1, k))
    case Assign(target, value) => [Name(target), Symbol(TAssign)] + ExprTokens(value, 0, k)
    case Call(callee, args) => [Name(callee), Symbol(TParenOpen)] + ListTokens(args, [Symbol(TParenClose)] + k)
    case ArrayLit(elems) => [Symbol(TArray), Symbol(TSquareOpen)] + ListTokens(elems, [Symbol(TSquareClose)] + k)
  }

  function ListTokens(es: seq<Expr>, k: seq<Token>): seq<Token>
    decreases es, 2
  {
    if es == [] then k
    else if |es| == 1 then ExprTokens(es[0], 0, k)
    else ExprTokens(es[0], 0, [Symbol(TComma)] + ListTokens(es[1..], k))
  }

  // The type of the first token of an expression.
  function FirstOfExpr(e: Expr, level: nat): TokenType {
    if Level(e) < level then TParenOpen
    else
      match e
      case IntLit(_) => TInt
      case StrLit(_) => TString
      case ArrayLit(_) => TArray
      case Binary(op, left, _) => FirstOfExpr(left, OperatorLevel(op))
      case _ => TIdent
  }

  // ----- statements -----

  function FirstOfStmt(s: Stmt): TokenType {
    match s
    case ExprStmt(e) => FirstOfExpr(e, 0)
    case VarDecl(_, isConst, _) => if isConst then TConst else TVar
    case FnDecl(_, _, _) => TFunction
    case Block(_) => TBraceOpen
    case If(_, _, _) => TIf
    case Loop(_, _, _) => TLoop
  }

  function NameTokens(names: seq<string>, k: seq<Token>): seq<Token> {
    if names == [] then k
    else if |names| == 1 then [Name(names[0])] + k
    else [Name(names[0]), Symbol(TComma)] + NameTokens(names[1..], k)
  }

  // Whether the body of a loop has to be kept apart from the head by parentheses: without them
  // its first identifier would be read as the iteration variable.
  predicate Shielded(count: Option<Expr>, iterVar: Option<string>, body: Stmt) {
    count.Some? && iterVar.None? && body.ExprStmt? && FirstOfStmt(body) == TIdent
  }

  function StmtTokens(s: Stmt, k: seq<Token>): seq<Token>
    decreases s, 0
  {
    match s
    case ExprStmt(e) => ExprTokens(e, 0, [Symbol(TSemicolon)] + k)
    case VarDecl(name, isConst, init) =>
      [Symbol(if isConst then TConst else TVar), Name(name)]
      + if init.None? then [Symbol(TSemicolon)] + k
        else [Symbol(TAssign)] + ExprTokens(init.value, 0, [Symbol(TSemicolon)] + k)
    case FnDecl(fname, params, body) =>
      [Symbol(TFunction), Name(fname), Symbol(TParenOpen)]
      + NameTokens(params, [Symbol(TParenClose), Symbol(TBraceOpen)] + StmtsTokens(body, [Symbol(TBraceClose)] + k))
    case Block(stmts) => [Symbol(TBraceOpen)] + StmtsTokens(stmts, [Symbol(TBraceClose)] + k)
    case If(cond, thn, els) =>
      [Symbol(TIf), Symbol(TParenOpen)]
      + ExprTokens(cond, 0, [Symbol(TParenClose)]
          + StmtTokens(thn, if els.None? then k else [Symbol(TElse)] + StmtTokens(els.value, k)))
    case Loop(count, iterVar, body) =>
      [Symbol(TLoop)] + LoopHead(count, iterVar, LoopBodyTokens(count, iterVar, body, k))
  }

  function LoopHead(count: Option<Expr>, iterVar: Option<string>, k: seq<Token>): seq<Token> {
    var named := if iterVar.None? then k else [Name(iterVar.value)] + k;
    if count.None? then named else [Symbol(TParenOpen)] + ExprTokens(count.value, 0, [Symbol(TParenClose)] + named)
  }

  function LoopBodyTokens(count: Option<Expr>, iterVar: Option<string>, body: Stmt, k: seq<Token>): seq<Token>
    decreases body, 1
  {
    if Shielded(count, iterVar, body) then ExprTokens(body.e, 5, [Symbol(TSemicolon)] + k) else StmtTokens(body, k)
  }

  function StmtsTokens(ss: seq<Stmt>, k: seq<Token>): seq<Token>
    decreases ss, 2
  {
    if ss == [] then k else StmtTokens(ss[0], StmtsTokens(ss[1..], k))
  }

  function ProgramTokens(program: seq<Stmt>): seq<Token> {
    StmtsTokens(program, [Symbol(TEof)])
  }

  // ----- the programs that can be written -----

  predicate WfExpr(e: Expr) {
    match e
    case IntLit(n) => 0 <= n <= Decimal.LLONG_MAX
    case Binary(_, left, right) => WfExpr(left) && WfExpr(right)
    case Assign(_, value) => WfExpr(value)
    case Call(_, args) => forall a :: a in args ==> WfExpr(a)
    case ArrayLit(elems) => forall a :: a in elems ==> WfExpr(a)
    case _ => true
  }

  // An if without else at the end of s would take an else that follows s.
  predicate Open(s: Stmt) {
    match s
    case If(_, _, els) => els.None? || Open(els.value)
    case Loop(_, _, body) => Open(body)
    case _ => false
  }

  // A constant has a value; a branch before an else is not open; and the body of a loop with
  // neither count nor variable does not start with what would be read as one.
  predicate WfStmt(s: Stmt) {
    match s
    case ExprStmt(e) => WfExpr(e)
    case VarDecl(_, isConst, init) => (isConst ==> init.Some?) && (init.Some? ==> WfExpr(init.value))
    case FnDecl(_, _, body) => forall b :: b in body ==> WfStmt(b)
    case Block(stmts) => forall b :: b in stmts ==> WfStmt(b)
    case If(cond, thn, els) => WfExpr(cond) && WfStmt(thn) && (els.Some? ==> WfStmt(els.value) && !Open(thn))
    case Loop(count, iterVar, body) =>
      && (count.Some? ==> WfExpr(count.value)) && WfStmt(body)
      && (count.None? && iterVar.None? ==> FirstOfStmt(body) != TIdent && FirstOfStmt(body) != TParenOpen)
  }

  predicate WfProgram(program: seq<Stmt>) { forall s :: s in program ==> WfStmt(s) }
}
