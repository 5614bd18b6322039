/** The scoping rules of the analyzer, stated for any names: declaration
    order, shadowing, the scope shared by the branches of an `if`, blocks
    that do not leak, and function parameters. */
module AnalyzerFacts {
  import opened Wrappers
  import opened Tokens
  import opened Ast
  import opened Scopes
  import opened Analyzer

  // ---------------------------------------------------------------------
  // The scope chain

  /** Declaring fails only for a name of the innermost scope: a name that
      only an outer scope has may be declared again, and the new entry
      hides the outer one. */
  lemma Shadowing(c: Chain, name: string)
    requires |c| > 0 && name !in c[0]
    ensures Declare(c, name).Ok?
    ensures Nearest(Declare(c, name).value, name) == Some(0)
    ensures !IsInitialized(Declare(c, name).value, name)
  {
  }

  /** Marking a name initialized leaves every other name's status as it
      was, and makes the name initialized exactly when it is declared. */
  lemma InitializeOnlyName(c: Chain, name: string, other: string)
    requires other != name
    ensures IsDeclared(Initialize(c, name), other) == IsDeclared(c, other)
    ensures IsInitialized(Initialize(c, name), other) == IsInitialized(c, other)
    ensures IsInitialized(Initialize(c, name), name) == IsDeclared(c, name)
  {
    var r := Initialize(c, name);
    var o := Nearest(c, other);
    if o.Some? {
      assert Nearest(r, other) == o;
    } else {
      assert Nearest(r, other).None?;
    }
    if Nearest(c, name).Some? {
      assert Nearest(r, name) == Nearest(c, name);
    }
  }

  // ---------------------------------------------------------------------
  // Declarations

  /** A declaration fails on a name its own scope already has; otherwise
      its initializer is analyzed with the name declared but not yet
      initialized, so an initializer that reads the name always fails; on
      success the name is added to the innermost scope, initialized. */
  lemma DeclarationOrder(c: Chain, name: string, init: Expr)
    requires |c| > 0
    ensures name in c[0] ==> AnalyzeStatement(c, VarDecl(name, init)) == Err(DuplicateDeclaration(name))
    ensures name !in c[0] && name in UsedNames(init) ==> AnalyzeStatement(c, VarDecl(name, init)).Err?
    ensures AnalyzeStatement(c, VarDecl(name, init)).Ok? ==>
              AnalyzeStatement(c, VarDecl(name, init)).value == [c[0][name := true]] + c[1..]
  {
    if name !in c[0] {
      var declared := Declare(c, name).value;
      if name in UsedNames(init) {
        SelfReferenceFails(c, name, init);
      }
      DeclareThenInitialize(c, name);
    }
  }

  /** An initializer that reads the name being declared fails. */
  lemma SelfReferenceFails(c: Chain, name: string, init: Expr)
    requires |c| > 0 && name !in c[0] && name in UsedNames(init)
    ensures AnalyzeExpression(Declare(c, name).value, init).Err?
  {
    var declared := Declare(c, name).value;
    assert Nearest(declared, name) == Some(0);
    ExpressionPasses(declared, init);
    var i :| 0 <= i < |UsedNames(init)| && UsedNames(init)[i] == name;
    assert !IsInitialized(declared, UsedNames(init)[i]);
  }

  /** A declaration whose initializer passes. */
  lemma DeclarationPasses(c: Chain, name: string, init: Expr)
    requires |c| > 0 && name !in c[0] && AnalyzeExpression(Declare(c, name).value, init).Ok?
    ensures AnalyzeStatement(c, VarDecl(name, init)) == Ok([c[0][name := true]] + c[1..])
  {
    DeclareThenInitialize(c, name);
  }

  /** `int x = x;` fails as uninitialized, whatever outer scopes say. */
  lemma SelfInitializationFails(c: Chain, x: string)
    requires |c| > 0 && x !in c[0]
    ensures AnalyzeStatement(c, VarDecl(x, Ident(x))) == Err(UninitializedVariable(x))
  {
    assert IsDeclared(Declare(c, x).value, x);
  }

  /** A name that is declared nowhere is reported as undeclared before
      anything is said about initialization. */
  lemma UndeclaredFirst(c: Chain, x: string)
    requires !IsDeclared(c, x)
    ensures AnalyzeExpression(c, Ident(x)) == Err(UndeclaredVariable(x))
  {
  }

  // ---------------------------------------------------------------------
  // Scopes of statements

  /** The two branches of an `if` share one scope: declaring the same name
      in both is a duplicate. */
  lemma BranchesShareScope(c: Chain, x: string, cond: string, a: string, b: string)
    requires |c| > 0
    ensures AnalyzeStatement(c, IfStmt(NumberLit(cond), VarDecl(x, NumberLit(a)), Some(VarDecl(x, NumberLit(b)))))
            == Err(DuplicateDeclaration(x))
  {
    var inner := Push(c);
    DeclarationPasses(inner, x, NumberLit(a));
    var afterThen := [inner[0][x := true]] + inner[1..];
    DeclarationOrder(afterThen, x, NumberLit(b));
  }

  /** A declaration inside a block, which may hide an outer one, is gone
      once the block ends. */
  lemma BlockRestores(c: Chain, x: string, init: string)
    requires |c| > 0
    ensures AnalyzeStatement(c, BlockStmt([VarDecl(x, NumberLit(init))])) == Ok(c)
  {
    var inner := Push(c);
    var s := VarDecl(x, NumberLit(init));
    DeclarationPasses(inner, x, NumberLit(init));
    var after := [inner[0][x := true]] + inner[1..];
    assert AnalyzeStatements(inner, [s]) == AnalyzeStatements(after, []);
  }

  /** A name declared in a block cannot be read after it. */
  lemma BlockDoesNotLeak(c: Chain, x: string, init: string)
    requires |c| > 0 && !IsDeclared(c, x)
    ensures AnalyzeStatements(c, [BlockStmt([VarDecl(x, NumberLit(init))]), ReturnStmt(Ident(x))])
            == Err(UndeclaredVariable(x))
  {
    var stmts := [BlockStmt([VarDecl(x, NumberLit(init))]), ReturnStmt(Ident(x))];
    BlockRestores(c, x, init);
    var rest := [ReturnStmt(Ident(x))];
    assert stmts[0] == BlockStmt([VarDecl(x, NumberLit(init))]) && stmts[1..] == rest;
    assert AnalyzeStatements(c, stmts) == AnalyzeStatements(c, rest);
    assert AnalyzeStatement(c, rest[0]) == Err(UndeclaredVariable(x));
  }

  // ---------------------------------------------------------------------
  // Functions

  /** Parameters are declared and initialized in the function's scope, so
      the body may read them; the caller's chain is as it was afterwards. */
  lemma ParameterIsReadable(c: Chain, f: string, p: string)
    requires |c| > 0
    ensures Analyze(c, FunctionDecl(f, [p], ReturnStmt(Ident(p)))) == Ok(c)
  {
    var scope := Push(c);
    DeclareThenInitialize(scope, p);
    var withParams := [scope[0][p := true]] + scope[1..];
    assert DeclareParameters(scope, [p]) == DeclareParameters(withParams, []);
    assert Nearest(withParams, p) == Some(0);
    assert AnalyzeStatement(withParams, ReturnStmt(Ident(p))) == Ok(withParams);
  }

  /** Two parameters with one name are a duplicate declaration. */
  lemma DuplicateParameter(c: Chain, f: string, p: string, body: Stmt)
    requires |c| > 0
    ensures Analyze(c, FunctionDecl(f, [p, p], body)) == Err(DuplicateDeclaration(p))
  {
    var first := Initialize(Declare(Push(c), p).value, p);
    assert DeclareParameters(Push(c), [p, p]) == DeclareParameters(first, [p]);
    assert p in first[0];
  }

  /** A function declaration is only accepted as the root: inside a body it
      is an unknown statement. */
  lemma NestedFunctionRejected(c: Chain, f: string, g: string, inner: Stmt)
    requires |c| > 0
    ensures Analyze(c, FunctionDecl(f, [], BlockStmt([FunctionDecl(g, [], inner)]))) == Err(UnknownStatementType)
  {
    var scope := Push(c);
    assert AnalyzeStatements(Push(scope), [FunctionDecl(g, [], inner)]) == Err(UnknownStatementType);
  }
}
