/**
  The abstract syntax tree (src/ast.h) and the run-time values (src/datatype.h) shared by the
  front end, the interpreter and the x86-64 back end.
*/
module Ast {
  datatype Option<+T> = None | Some(value: T)

  // enum ast_bin_operator
  datatype BinOp =
    | Plus | Minus | Divide | Times | Modulus
    | Lt | Gt | Ge | Le | Eq | EqS | Ne | NeS

  predicate IsComparison(op: BinOp) {
    op.Lt? || op.Gt? || op.Ge? || op.Le? || op.Eq? || op.EqS? || op.Ne? || op.NeS?
  }

  datatype Expr =
    | IntLit(n: int)
    | StrLit(s: string)
    | Ident(name: string)
    | Binary(op: BinOp, left: Expr, right: Expr)
    | Assign(target: string, value: Expr)
    | Call(callee: string, args: seq<Expr>)
    | ArrayLit(elems: seq<Expr>)

  datatype Stmt =
    | ExprStmt(e: Expr)
    | VarDecl(name: string, isConst: bool, init: Option<Expr>)
    | FnDecl(fname: string, params: seq<string>, body: seq<Stmt>)
    | Block(stmts: seq<Stmt>)
    | If(cond: Expr, thn: Stmt, els: Option<Stmt>)
    | Loop(count: Option<Expr>, iterVar: Option<string>, loopBody: Stmt)

  // Float values are produced by division only; the quotient is kept as the pair of its
  // operands because no operation of the modelled fragment looks inside a float.
  datatype Val =
    | VInt(i: int)
    | VFloat(num: int, den: int)
    | VStr(s: string)
    | VBool(b: bool)
    | VNull
    | VBuiltin(fn: string)
}
