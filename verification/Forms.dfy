/**
  Every way to write a program: expressions with any parentheses, argument lists with or without
  commas, trailing commas, extra semicolons, and both places for the variable of a loop. A form is
  written as tokens and means a tree; the printed form of a tree is one of the forms that mean it.
*/
module Forms {
  import opened Ast
  import opened Tokens
  import opened Printer
  import Decimal

  datatype Form =
    | Word(token: Token)
    | Grouped(inner: Form)
    | Apply(callee: string, args: seq<Arg>)
    | Infix(op: BinOp, left: Form, right: Form)
    | Store(target: string, stored: Form)
    | Items(elems: seq<Form>, comma: bool)

  // An argument, with or without a comma behind it.
  datatype Arg = Arg(form: Form, comma: bool)

  // A count in parentheses, with or without `as name`.
  datatype Count = Count(form: Form, asName: Option<string>)

  // The semicolons behind a statement, besides the one that it needs, are counted by extra.
  datatype StmtForm =
    | ExprForm(e: Form, extra: nat)
    | DeclForm(name: string, isConst: bool, init: Option<Form>, extra: nat)
    | FnForm(fname: string, params: seq<string>, comma: bool, body: seq<StmtForm>, extra: nat)
    | BlockForm(stmts: seq<StmtForm>, extra: nat)
    | IfForm(cond: Form, thn: StmtForm, els: Option<StmtForm>)
    | LoopForm(count: Option<Count>, named: Option<string>, loopBody: StmtForm)

  // ----- tokens -----

  function OperatorToken(op: BinOp): Token { Token(TOperator, OperatorText(op)) }

  function Comma(present: bool, k: seq<Token>): seq<Token> { if present then [Symbol(TComma)] + k else k }

  function FormTokens(f: Form, k: seq<Token>): seq<Token>
    decreases f
  {
    match f
    case Word(token) => [token] + k
    case Grouped(inner) => [Symbol(TParenOpen)] + FormTokens(inner, [Symbol(TParenClose)] + k)
    case Apply(callee, args) => [Name(callee)] + ([Symbol(TParenOpen)] + ArgsTokens(args, [Symbol(TParenClose)] + k))
    case Infix(op, left, right) => FormTokens(left, [OperatorToken(op)] + FormTokens(right, k))
    case Store(target, stored) => [Name(target)] + ([Symbol(TAssign)] + FormTokens(stored, k))
    case Items(elems, comma) =>
      [Symbol(TArray)] + ([Symbol(TSquareOpen)] + ElemsTokens(elems, comma, [Symbol(TSquareClose)] + k))
  }

  function ArgsTokens(args: seq<Arg>, k: seq<Token>): seq<Token>
    decreases args
  {
    if args == [] then k else ArgTokens(args[0], ArgsTokens(args[1..], k))
  }

  function ArgTokens(a: Arg, k: seq<Token>): seq<Token>
    decreases a
  {
    FormTokens(a.form, Comma(a.comma, k))
  }

  // Elements with commas between them, and behind the last one if comma says so.
  function ElemsTokens(elems: seq<Form>, comma: bool, k: seq<Token>): seq<Token>
    decreases elems
  {
    if elems == [] then k
    else if |elems| == 1 then FormTokens(elems[0], Comma(comma, k))
    else FormTokens(elems[0], [Symbol(TComma)] + ElemsTokens(elems[1..], comma, k))
  }

  function Semicolons(n: nat, k: seq<Token>): seq<Token> {
    if n == 0 then k else [Symbol(TSemicolon)] + Semicolons(n - 1, k)
  }

  function ParamTokens(params: seq<string>, comma: bool, k: seq<Token>): seq<Token> {
    if params == [] then k
    else if |params| == 1 then [Name(params[0])] + Comma(comma, k)
    else [Name(params[0])] + ([Symbol(TComma)] + ParamTokens(params[1..], comma, k))
  }

  function CountTokens(count: Option<Count>, named: Option<string>, k: seq<Token>): seq<Token> {
    var k1 := if named.None? then k else [Name(named.value)] + k;
    if count.None? then k1
    else
      var k2 := [Symbol(TParenClose)] + k1;
      [Symbol(TParenOpen)] + FormTokens(count.value.form,
        if count.value.asName.None? then k2 else [Symbol(TAs)] + ([Name(count.value.asName.value)] + k2))
  }

  function StmtFormTokens(s: StmtForm, k: seq<Token>): seq<Token>
    decreases s
  {
    match s
    case ExprForm(e, extra) => FormTokens(e, [Symbol(TSemicolon)] + Semicolons(extra, k))
    case DeclForm(name, isConst, init, extra) =>
      var k1 := [Symbol(TSemicolon)] + Semicolons(extra, k);
      [Symbol(if isConst then TConst else TVar)]
      + ([Name(name)] + if init.None? then k1 else [Symbol(TAssign)] + FormTokens(init.value, k1))
    case FnForm(fname, params, comma, body, extra) =>
      [Symbol(TFunction)] + ([Name(fname)] + ([Symbol(TParenOpen)]
      + ParamTokens(params, comma, [Symbol(TParenClose)] + ([Symbol(TBraceOpen)]
        + StmtFormsTokens(body, [Symbol(TBraceClose)] + Semicolons(extra, k))))))
    case BlockForm(stmts, extra) =>
      [Symbol(TBraceOpen)] + StmtFormsTokens(stmts, [Symbol(TBraceClose)] + Semicolons(extra, k))
    case IfForm(cond, thn, els) =>
      [Symbol(TIf)] + ([Symbol(TParenOpen)] + FormTokens(cond, [Symbol(TParenClose)]
        + StmtFormTokens(thn, if els.None? then k else [Symbol(TElse)] + StmtFormTokens(els.value, k))))
    case LoopForm(count, named, body) => [Symbol(TLoop)] + CountTokens(count, named, StmtFormTokens(body, k))
  }

  function StmtFormsTokens(ss: seq<StmtForm>, k: seq<Token>): seq<Token>
    decreases ss
  {
    if ss == [] then k else StmtFormTokens(ss[0], StmtFormsTokens(ss[1..], k))
  }

  // ----- meaning -----

  // A number that is too large is read as the largest one.
  function Capped(n: nat): int { if n <= Decimal.LLONG_MAX then n else Decimal.LLONG_MAX }

  function Meaning(f: Form): Expr
    requires Proper(f)
    decreases f
  {
    match f
    case Word(token) =>
      if token.typ == TInt then IntLit(Capped(Decimal.Value(token.text)))
      else if token.typ == TString then StrLit(token.text)
      else Ident(token.text)
    case Grouped(inner) => Meaning(inner)
    case Apply(callee, args) => Call(callee, seq(|args|, i requires 0 <= i < |args| => Meaning(args[i].form)))
    case Infix(op, left, right) => Binary(op, Meaning(left), Meaning(right))
    case Store(target, stored) => Assign(target, Meaning(stored))
    case Items(elems, _) => ArrayLit(seq(|elems|, i requires 0 <= i < |elems| => Meaning(elems[i])))
  }

  predicate ProperAll(fs: seq<Form>) { forall i :: 0 <= i < |fs| ==> Proper(fs[i]) }

  function Meanings(fs: seq<Form>): seq<Expr>
    requires ProperAll(fs)
  {
    seq(|fs|, i requires 0 <= i < |fs| => Meaning(fs[i]))
  }

  function MeaningOf(f: Option<Form>): Option<Expr>
    requires f.Some? ==> Proper(f.value)
  {
    if f.None? then None else Some(Meaning(f.value))
  }

  function StmtMeaning(s: StmtForm): Stmt
    requires ProperStmt(s)
    decreases s
  {
    match s
    case ExprForm(e, _) => ExprStmt(Meaning(e))
    case DeclForm(name, isConst, init, _) => VarDecl(name, isConst, MeaningOf(init))
    case FnForm(fname, params, _, body, _) =>
      FnDecl(fname, params, seq(|body|, i requires 0 <= i < |body| => StmtMeaning(body[i])))
    case BlockForm(stmts, _) => Block(seq(|stmts|, i requires 0 <= i < |stmts| => StmtMeaning(stmts[i])))
    case IfForm(cond, thn, els) =>
      If(Meaning(cond), StmtMeaning(thn), if els.None? then None else Some(StmtMeaning(els.value)))
    case LoopForm(count, named, body) =>
      Loop(if count.None? then None else Some(Meaning(count.value.form)), Variable(count, named), StmtMeaning(body))
  }

  // A name behind the head replaces one inside the parentheses.
  function Variable(count: Option<Count>, named: Option<string>): Option<string> {
    if named.Some? then named else if count.Some? then count.value.asName else None
  }

  // ----- what has to be written how -----

  // 0 for what only a whole expression can be, 4 for what any operand can be
  function FormLevel(f: Form): (level: nat)
    ensures level <= 4
  {
    match f
    case Store(_, _) => 0
    case Items(_, _) => 0
    case Infix(op, _, _) => OperatorLevel(op)
    case _ => 4
  }

  // The type of the first token.
  function FirstOf(f: Form): TokenType {
    match f
    case Word(token) => token.typ
    case Grouped(_) => TParenOpen
    case Infix(_, left, _) => FirstOf(left)
    case Items(_, _) => TArray
    case _ => TIdent
  }

  // A parenthesis behind the form would be read as the arguments of a call.
  predicate EndsInName(f: Form) {
    match f
    case Word(token) => token.typ == TIdent
    case Infix(_, _, right) => EndsInName(right)
    case Store(_, stored) => EndsInName(stored)
    case _ => false
  }

  predicate IsWordToken(t: Token) {
    t.typ == TIdent || t.typ == TString || (t.typ == TInt && Decimal.AllDigits(t.text))
  }

  // Operands are of their level, and where no comma stands between two arguments the second one
  // does not start with a parenthesis that the first one would take.
  predicate Proper(f: Form)
    decreases f
  {
    match f
    case Word(token) => IsWordToken(token)
    case Grouped(inner) => Proper(inner)
    case Apply(_, args) =>
      && (forall i :: 0 <= i < |args| ==> Proper(args[i].form))
      && forall i :: 0 <= i < |args| - 1 ==> Separate(args[i], args[i + 1].form)
    case Infix(op, left, right) =>
      && Proper(left) && Proper(right)
      && FormLevel(left) >= OperatorLevel(op) && FormLevel(right) >= OperatorLevel(op) + 1
    case Store(_, stored) => Proper(stored)
    case Items(elems, comma) => (forall i :: 0 <= i < |elems| ==> Proper(elems[i])) && (comma ==> elems != [])
  }

  predicate Separate(a: Arg, next: Form) { a.comma || !EndsInName(a.form) || FirstOf(next) != TParenOpen }

  predicate OpenForm(s: StmtForm) {
    match s
    case IfForm(_, _, els) => els.None? || OpenForm(els.value)
    case LoopForm(_, _, body) => OpenForm(body)
    case _ => false
  }

  function FirstOfStmtForm(s: StmtForm): TokenType {
    match s
    case ExprForm(e, _) => FirstOf(e)
    case DeclForm(_, isConst, _, _) => if isConst then TConst else TVar
    case FnForm(_, _, _, _, _) => TFunction
    case BlockForm(_, _) => TBraceOpen
    case IfForm(_, _, _) => TIf
    case LoopForm(_, _, _) => TLoop
  }

  // A constant has a value; a branch before an else is not open; the body of a loop without a name
  // behind its head does not start with one; and without any head it does not start with a
  // parenthesis either.
  predicate ProperStmt(s: StmtForm)
    decreases s
  {
    match s
    case ExprForm(e, _) => Proper(e)
    case DeclForm(_, isConst, init, _) => (isConst ==> init.Some?) && (init.Some? ==> Proper(init.value))
    case FnForm(_, params, comma, body, _) =>
      (comma ==> params != []) && forall i :: 0 <= i < |body| ==> ProperStmt(body[i])
    case BlockForm(stmts, _) => forall i :: 0 <= i < |stmts| ==> ProperStmt(stmts[i])
    case IfForm(cond, thn, els) =>
      Proper(cond) && ProperStmt(thn) && (els.Some? ==> ProperStmt(els.value) && !OpenForm(thn))
    case LoopForm(count, named, body) =>
      && (count.Some? ==> Proper(count.value.form)) && ProperStmt(body)
      && (named.None? ==> FirstOfStmtForm(body) != TIdent && (count.None? ==> FirstOfStmtForm(body) != TParenOpen))
  }

  predicate ProperStmts(ss: seq<StmtForm>) { forall i :: 0 <= i < |ss| ==> ProperStmt(ss[i]) }

  function StmtMeanings(ss: seq<StmtForm>): seq<Stmt>
    requires ProperStmts(ss)
  {
    seq(|ss|, i requires 0 <= i < |ss| => StmtMeaning(ss[i]))
  }
}
