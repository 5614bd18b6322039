/** The semantic analyzer: a walk over the tree that keeps a scope chain
    and stops at the first error. Each statement is analyzed in a chain
    and yields the chain after it. */
module Analyzer {
  import opened Wrappers
  import opened Tokens
  import opened Ast
  import opened Scopes

  /** The analyzer as constructed: one empty outermost scope. */
  function Initial(): (c: Chain)
    ensures |c| == 1 && forall n :: !IsDeclared(c, n)
  {
    [map[]]
  }

  // ---------------------------------------------------------------------
  // Expressions

  /** A name in use must be declared, and then initialized, in that order;
      number literals always pass; both sides of an operator are checked,
      the left one first. */
  function AnalyzeExpression(c: Chain, e: Expr): (r: Result<(), SemanticError>)
    ensures r.Err? ==> (r.error.UndeclaredVariable? || r.error.UninitializedVariable?) && r.error.name in UsedNames(e)
  {
    match e
    case Binary(l, _, r) =>
      var _ :- AnalyzeExpression(c, l);
      AnalyzeExpression(c, r)
    case Ident(n) =>
      if !IsDeclared(c, n) then Err(UndeclaredVariable(n))
      else if !IsInitialized(c, n) then Err(UninitializedVariable(n))
      else Ok(())
    case NumberLit(_) => Ok(())
  }

  /** The error for the first name of `names` that cannot be read in `c`. */
  function FirstUnusable(c: Chain, names: seq<string>): (r: Option<SemanticError>)
    ensures r.None? <==> forall i :: 0 <= i < |names| ==> IsInitialized(c, names[i])
  {
    if names == [] then None
    else if !IsDeclared(c, names[0]) then Some(UndeclaredVariable(names[0]))
    else if !IsInitialized(c, names[0]) then Some(UninitializedVariable(names[0]))
    else FirstUnusable(c, names[1..])
  }

  lemma {:induction false} FirstUnusableAppend(c: Chain, a: seq<string>, b: seq<string>)
    ensures FirstUnusable(c, a + b) == if FirstUnusable(c, a).Some? then FirstUnusable(c, a) else FirstUnusable(c, b)
  {
    if a != [] {
      assert (a + b)[0] == a[0];
      assert (a + b)[1..] == a[1..] + b;
      FirstUnusableAppend(c, a[1..], b);
    } else {
      assert a + b == b;
    }
  }

  /** The error an expression reports is the one for the first name it
      reads, left to right, that is undeclared or uninitialized. */
  lemma {:induction false} ExpressionReportsFirstUnusable(c: Chain, e: Expr)
    ensures var r := AnalyzeExpression(c, e); var f := FirstUnusable(c, UsedNames(e));
            (r.Ok? <==> f.None?) && (r.Err? ==> f == Some(r.error))
  {
    match e
    case Binary(l, _, r) =>
      ExpressionReportsFirstUnusable(c, l);
      ExpressionReportsFirstUnusable(c, r);
      FirstUnusableAppend(c, UsedNames(l), UsedNames(r));
    case Ident(n) =>
      assert UsedNames(e) == [n];
      assert UsedNames(e)[1..] == [];
    case NumberLit(_) =>
  }

  /** An expression passes exactly when every name it reads is declared and
      initialized. */
  lemma ExpressionPasses(c: Chain, e: Expr)
    ensures AnalyzeExpression(c, e).Ok? <==> forall i :: 0 <= i < |UsedNames(e)| ==> IsInitialized(c, UsedNames(e)[i])
  {
    ExpressionReportsFirstUnusable(c, e);
  }

  // ---------------------------------------------------------------------
  // Statements

  /** `after` is `before` with names added to the innermost scope, whose
      existing entries keep their flags; the outer scopes are unchanged. */
  predicate Extends(after: Chain, before: Chain) {
    && |after| == |before| > 0
    && after[1..] == before[1..]
    && forall k :: k in before[0] ==> k in after[0] && after[0][k] == before[0][k]
  }

  /** One statement. A declaration declares its name first, analyzes the
      initializer with the name already declared, and only then marks it
      initialized. The branches of an `if` share one new scope, and a block
      gets one; both are dropped afterwards. A function declaration is not
      a statement the analyzer knows. */
  function AnalyzeStatement(c: Chain, s: Stmt): (r: Result<Chain, SemanticError>)
    requires |c| > 0
    ensures r.Ok? ==> Extends(r.value, c)
    ensures r.Ok? && !s.VarDecl? ==> r.value == c
    decreases s, 1
  {
    match s
    case VarDecl(name, init) =>
      var declared :- Declare(c, name);
      var _ :- AnalyzeExpression(declared, init);
      Ok(Initialize(declared, name))
    case IfStmt(cond, thenBranch, elseBranch) =>
      var _ :- AnalyzeExpression(c, cond);
      var afterThen :- AnalyzeStatement(Push(c), thenBranch);
      var afterElse :- if elseBranch.Some? then AnalyzeStatement(afterThen, elseBranch.value) else Ok(afterThen);
      Ok(afterElse[1..])
    case BlockStmt(stmts) =>
      var inner :- AnalyzeStatements(Push(c), stmts);
      Ok(inner[1..])
    case ReturnStmt(value) =>
      var _ :- AnalyzeExpression(c, value);
      Ok(c)
    case FunctionDecl(_, _, _) =>
      Err(UnknownStatementType)
  }

  /** A block's statements, in order, in one chain. */
  function AnalyzeStatements(c: Chain, stmts: seq<Stmt>): (r: Result<Chain, SemanticError>)
    requires |c| > 0
    ensures r.Ok? ==> Extends(r.value, c)
    decreases stmts, 0
  {
    if stmts == [] then Ok(c)
    else
      var next :- AnalyzeStatement(c, stmts[0]);
      AnalyzeStatements(next, stmts[1..])
  }

  // ---------------------------------------------------------------------
  // The entry point

  /** Declares and initializes each parameter in the innermost scope. */
  function DeclareParameters(c: Chain, params: seq<string>): (r: Result<Chain, SemanticError>)
    requires |c| > 0
    ensures r.Ok? ==> Extends(r.value, c)
    ensures r.Ok? ==> forall i :: 0 <= i < |params| ==> params[i] in r.value[0] && r.value[0][params[i]]
    decreases |params|
  {
    if params == [] then Ok(c)
    else
      var declared :- Declare(c, params[0]);
      var next := Initialize(declared, params[0]);
      DeclareParameters(next, params[1..])
  }

  /** A function gets a scope of its own holding its parameters, dropped
      after its body; any other root is analyzed as a statement of the
      current scope. */
  function Analyze(c: Chain, root: Stmt): (r: Result<Chain, SemanticError>)
    requires |c| > 0
    ensures r.Ok? ==> Extends(r.value, c)
    ensures r.Ok? && root.FunctionDecl? ==> r.value == c
  {
    match root
    case FunctionDecl(_, params, body) =>
      var withParams :- DeclareParameters(Push(c), params);
      var after :- AnalyzeStatement(withParams, body);
      Ok(after[1..])
    case _ => AnalyzeStatement(c, root)
  }
}
