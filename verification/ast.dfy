/** The abstract syntax tree the parser builds: three expression forms and
    five statement forms, as sum types. A number literal keeps its source
    text; its numeric value is not part of this model. */
module Ast {
  import opened Wrappers
  import opened Tokens

  datatype Expr =
    | Binary(left: Expr, op: TokenKind, right: Expr)
    | NumberLit(text: string)
    | Ident(name: string)

  datatype Stmt =
    | FunctionDecl(name: string, params: seq<string>, body: Stmt)
    | VarDecl(name: string, init: Expr)
    | ReturnStmt(value: Expr)
    | IfStmt(cond: Expr, thenBranch: Stmt, elseBranch: Option<Stmt>)
    | BlockStmt(stmts: seq<Stmt>)

  /** The ten kinds the parser accepts between two operands. */
  predicate IsBinaryOperator(k: TokenKind) {
    IsComparison(k) || k.Plus? || k.Minus? || k.Multiply? || k.Divide?
  }

  /** Every operator in the tree is a binary operator. */
  predicate WellFormed(e: Expr) {
    match e
    case Binary(l, op, r) => IsBinaryOperator(op) && WellFormed(l) && WellFormed(r)
    case _ => true
  }

  function Size(e: Expr): nat {
    match e
    case Binary(l, _, r) => 1 + Size(l) + Size(r)
    case _ => 1
  }

  /** The names an expression reads, left to right. */
  function UsedNames(e: Expr): seq<string> {
    match e
    case Binary(l, _, r) => UsedNames(l) + UsedNames(r)
    case NumberLit(_) => []
    case Ident(n) => [n]
  }
}
