/** A reference for the semantic analyzer. A statement is flattened into
    the events the analysis performs on the scope chain, in order: reading
    a name, declaring one, marking one initialized, entering and leaving a
    scope, and rejecting a node. A small interpreter runs the events over
    the chain and stops at the first failing one. The analyzer is proved to
    be exactly that run, so every read is checked, in order, in the chain
    the events before it leave. */
module AnalyzerReference {
  import opened Wrappers
  import opened Ast
  import opened Scopes
  import opened Analyzer

  datatype Event =
    | Read(name: string)
    | Introduce(name: string)
    | MarkInitialized(name: string)
    | Enter
    | Leave
    | Reject

  /** One event. A read needs the name declared, then initialized. Leaving
      drops the innermost scope; the events of a statement always leave a
      scope they entered, so the outermost one is never dropped. */
  function Step(c: Chain, ev: Event): (r: Result<Chain, SemanticError>)
    requires |c| > 0
    ensures r.Ok? ==> |r.value| > 0
  {
    match ev
    case Read(n) =>
      if !IsDeclared(c, n) then Err(UndeclaredVariable(n))
      else if !IsInitialized(c, n) then Err(UninitializedVariable(n))
      else Ok(c)
    case Introduce(n) => Declare(c, n)
    case MarkInitialized(n) => Ok(Initialize(c, n))
    case Enter => Ok(Push(c))
    case Leave => Ok(if |c| > 1 then c[1..] else c)
    case Reject => Err(UnknownStatementType)
  }

  /** The events in order, stopping at the first error. */
  function Run(c: Chain, evs: seq<Event>): (r: Result<Chain, SemanticError>)
    requires |c| > 0
    ensures r.Ok? ==> |r.value| > 0
    decreases |evs|
  {
    if evs == [] then Ok(c)
    else
      var next :- Step(c, evs[0]);
      Run(next, evs[1..])
  }

  /** Running more events after a result, unless it is an error. */
  function Then(r: Result<Chain, SemanticError>, evs: seq<Event>): Result<Chain, SemanticError>
    requires r.Ok? ==> |r.value| > 0
  {
    if r.Err? then r else Run(r.value, evs)
  }

  // ---------------------------------------------------------------------
  // The events of the tree

  function Reads(names: seq<string>): seq<Event>
    decreases |names|
  {
    if names == [] then [] else [Read(names[0])] + Reads(names[1..])
  }

  /** The events of `body` inside a scope of their own. */
  function InScope(body: seq<Event>): seq<Event> {
    [Enter] + body + [Leave]
  }

  /** A declaration declares, reads its initializer, then initializes; an
      `if` reads its condition and runs both branches inside one scope; a
      block runs its statements inside one scope. */
  function Events(s: Stmt): seq<Event>
    decreases s, 1
  {
    match s
    case VarDecl(n, init) => [Introduce(n)] + Reads(UsedNames(init)) + [MarkInitialized(n)]
    case IfStmt(cond, t, els) =>
      var branches := match els case Some(e) => Events(t) + Events(e) case None => Events(t);
      Reads(UsedNames(cond)) + InScope(branches)
    case BlockStmt(ss) => InScope(EventsOf(ss))
    case ReturnStmt(v) => Reads(UsedNames(v))
    case FunctionDecl(_, _, _) => [Reject]
  }

  function EventsOf(ss: seq<Stmt>): seq<Event>
    decreases ss, 0
  {
    if ss == [] then [] else Events(ss[0]) + EventsOf(ss[1..])
  }

  function ParameterEvents(params: seq<string>): seq<Event>
    decreases |params|
  {
    if params == [] then [] else [Introduce(params[0]), MarkInitialized(params[0])] + ParameterEvents(params[1..])
  }

  /** A function runs its parameters and body inside one scope; any other
      root is a statement. */
  function RootEvents(root: Stmt): seq<Event> {
    match root
    case FunctionDecl(_, params, body) => InScope(ParameterEvents(params) + Events(body))
    case _ => Events(root)
  }

  // ---------------------------------------------------------------------
  // Running pieces

  lemma {:induction false} RunAppend(c: Chain, a: seq<Event>, b: seq<Event>)
    requires |c| > 0
    ensures Run(c, a + b) == Then(Run(c, a), b)
    decreases |a|
  {
    if a == [] {
      assert a + b == b;
    } else {
      assert (a + b)[0] == a[0] && (a + b)[1..] == a[1..] + b;
      var step := Step(c, a[0]);
      if step.Ok? {
        RunAppend(step.value, a[1..], b);
      }
    }
  }

  lemma RunOne(c: Chain, ev: Event)
    requires |c| > 0
    ensures Run(c, [ev]) == Step(c, ev)
  {
    assert [ev][1..] == [];
  }

  /** Reading names fails with the first unusable one, and otherwise leaves
      the chain as it is. */
  lemma {:induction false} ReadsRun(c: Chain, names: seq<string>)
    requires |c| > 0
    ensures Run(c, Reads(names)) == if FirstUnusable(c, names).Some? then Err(FirstUnusable(c, names).value) else Ok(c)
    decreases |names|
  {
    if names != [] {
      var rest := Reads(names[1..]);
      assert Reads(names) == [Read(names[0])] + rest;
      RunAppend(c, [Read(names[0])], rest);
      RunOne(c, Read(names[0]));
      ReadsRun(c, names[1..]);
    }
  }

  /** The expression analysis, as events: the same error, and otherwise
      the same chain. */
  function Keep(r: Result<(), SemanticError>, c: Chain): Result<Chain, SemanticError> {
    if r.Err? then Err(r.error) else Ok(c)
  }

  lemma ExpressionRun(c: Chain, e: Expr)
    requires |c| > 0
    ensures Run(c, Reads(UsedNames(e))) == Keep(AnalyzeExpression(c, e), c)
  {
    ReadsRun(c, UsedNames(e));
    ExpressionReportsFirstUnusable(c, e);
  }

  // ---------------------------------------------------------------------
  // The analyzer is the run of its events

  /** Analyzing a statement is running its events: the same error at the
      same point, or the same chain after it. */
  lemma {:induction false} StatementIsRun(c: Chain, s: Stmt)
    requires |c| > 0
    ensures AnalyzeStatement(c, s) == Run(c, Events(s))
    decreases s, 2
  {
    match s
    case VarDecl(n, init) => DeclarationIsRun(c, n, init);
    case IfStmt(cond, t, els) =>
      match els {
        case None => IfIsRun(c, cond, t);
        case Some(e) => IfElseIsRun(c, cond, t, e);
      }
    case BlockStmt(ss) => BlockIsRun(c, ss);
    case ReturnStmt(v) => ExpressionRun(c, v);
    case FunctionDecl(_, _, _) => RunOne(c, Reject);
  }

  /** Analyzing statements in order is running their events in order. */
  lemma {:induction false} StatementsIsRun(c: Chain, ss: seq<Stmt>)
    requires |c| > 0
    ensures AnalyzeStatements(c, ss) == Run(c, EventsOf(ss))
    decreases ss, 0
  {
    if ss != [] {
      RunAppend(c, Events(ss[0]), EventsOf(ss[1..]));
      StatementIsRun(c, ss[0]);
      var first := AnalyzeStatement(c, ss[0]);
      if first.Ok? {
        StatementsIsRun(first.value, ss[1..]);
      }
    }
  }

  lemma DeclarationIsRun(c: Chain, n: string, init: Expr)
    requires |c| > 0
    ensures AnalyzeStatement(c, VarDecl(n, init)) == Run(c, Events(VarDecl(n, init)))
  {
    var used := Reads(UsedNames(init));
    RunAppend(c, [Introduce(n)] + used, [MarkInitialized(n)]);
    RunAppend(c, [Introduce(n)], used);
    RunOne(c, Introduce(n));
    var d := Declare(c, n);
    if d.Ok? {
      ExpressionRun(d.value, init);
      RunOne(d.value, MarkInitialized(n));
    }
  }

  /** Inside a scope entered at `c`: the body's run, then the innermost
      scope dropped. */
  lemma {:induction false} InsideScope(c: Chain, body: seq<Event>)
    requires |c| > 0
    ensures var inner := Run(Push(c), body);
            Run(c, InScope(body)) ==
            if inner.Err? then inner else Ok(if |inner.value| > 1 then inner.value[1..] else inner.value)
  {
    RunAppend(c, [Enter] + body, [Leave]);
    RunAppend(c, [Enter], body);
    RunOne(c, Enter);
    var inner := Run(Push(c), body);
    if inner.Ok? {
      RunOne(inner.value, Leave);
    }
  }

  lemma IfIsRun(c: Chain, cond: Expr, t: Stmt)
    requires |c| > 0
    ensures AnalyzeStatement(c, IfStmt(cond, t, None)) == Run(c, Events(IfStmt(cond, t, None)))
    decreases IfStmt(cond, t, None), 0
  {
    RunAppend(c, Reads(UsedNames(cond)), InScope(Events(t)));
    ExpressionRun(c, cond);
    if AnalyzeExpression(c, cond).Ok? {
      InsideScope(c, Events(t));
      StatementIsRun(Push(c), t);
    }
  }

  lemma IfElseIsRun(c: Chain, cond: Expr, t: Stmt, e: Stmt)
    requires |c| > 0
    ensures AnalyzeStatement(c, IfStmt(cond, t, Some(e))) == Run(c, Events(IfStmt(cond, t, Some(e))))
    decreases IfStmt(cond, t, Some(e)), 1
  {
    RunAppend(c, Reads(UsedNames(cond)), InScope(Events(t) + Events(e)));
    ExpressionRun(c, cond);
    if AnalyzeExpression(c, cond).Ok? {
      InsideScope(c, Events(t) + Events(e));
      BranchesRun(c, cond, t, e);
    }
  }

  /** Both branches, in the one scope pushed on `c`. */
  lemma BranchesRun(c: Chain, cond: Expr, t: Stmt, e: Stmt)
    requires |c| > 0
    ensures var afterThen := AnalyzeStatement(Push(c), t);
            Run(Push(c), Events(t) + Events(e)) ==
            if afterThen.Err? then afterThen else AnalyzeStatement(afterThen.value, e)
    decreases IfStmt(cond, t, Some(e)), 0
  {
    RunAppend(Push(c), Events(t), Events(e));
    StatementIsRun(Push(c), t);
    var afterThen := AnalyzeStatement(Push(c), t);
    if afterThen.Ok? {
      StatementIsRun(afterThen.value, e);
    }
  }

  lemma BlockIsRun(c: Chain, ss: seq<Stmt>)
    requires |c| > 0
    ensures AnalyzeStatement(c, BlockStmt(ss)) == Run(c, Events(BlockStmt(ss)))
    decreases BlockStmt(ss), 0
  {
    InsideScope(c, EventsOf(ss));
    StatementsIsRun(Push(c), ss);
  }

  /** Declaring the parameters is running their events. */
  lemma {:induction false} ParametersIsRun(c: Chain, params: seq<string>)
    requires |c| > 0
    ensures DeclareParameters(c, params) == Run(c, ParameterEvents(params))
    decreases |params|
  {
    if params != [] {
      var p := params[0];
      var rest := ParameterEvents(params[1..]);
      assert ParameterEvents(params) == [Introduce(p)] + ([MarkInitialized(p)] + rest);
      RunAppend(c, [Introduce(p)], [MarkInitialized(p)] + rest);
      RunOne(c, Introduce(p));
      var d := Declare(c, p);
      if d.Ok? {
        RunAppend(d.value, [MarkInitialized(p)], rest);
        RunOne(d.value, MarkInitialized(p));
        ParametersIsRun(Initialize(d.value, p), params[1..]);
      }
    }
  }

  /** The entry point is the run of the root's events: a function runs its
      parameters and its body inside one scope of its own. */
  lemma AnalyzeIsRun(c: Chain, root: Stmt)
    requires |c| > 0
    ensures Analyze(c, root) == Run(c, RootEvents(root))
  {
    match root
    case FunctionDecl(_, params, body) =>
      InsideScope(c, ParameterEvents(params) + Events(body));
      FunctionBodyRun(c, params, body);
    case _ => StatementIsRun(c, root);
  }

  lemma FunctionBodyRun(c: Chain, params: seq<string>, body: Stmt)
    requires |c| > 0
    ensures var withParams := DeclareParameters(Push(c), params);
            Run(Push(c), ParameterEvents(params) + Events(body)) ==
            if withParams.Err? then withParams else AnalyzeStatement(withParams.value, body)
  {
    RunAppend(Push(c), ParameterEvents(params), Events(body));
    ParametersIsRun(Push(c), params);
    var withParams := DeclareParameters(Push(c), params);
    if withParams.Ok? {
      StatementIsRun(withParams.value, body);
    }
  }

  // ---------------------------------------------------------------------
  // What the run guarantees

  lemma PrefixStep(evs: seq<Event>, i: nat)
    requires i < |evs|
    ensures evs[..i + 1] == evs[..i] + [evs[i]]
  {
  }

  /** A run that passes checked every read it made: at each read, the
      events before it passed and left the name declared and initialized. */
  lemma {:induction false} PassingRunReadsInitialized(c: Chain, evs: seq<Event>, i: nat)
    requires |c| > 0 && Run(c, evs).Ok?
    requires i < |evs| && evs[i].Read?
    ensures Run(c, evs[..i]).Ok? && IsInitialized(Run(c, evs[..i]).value, evs[i].name)
  {
    RunAppend(c, evs[..i], evs[i..]);
    assert evs[..i] + evs[i..] == evs;
    var before := Run(c, evs[..i]);
    assert before.Ok?;
    assert evs[i..][0] == evs[i];
  }

  /** A run that fails, fails at one event: the events before it passed,
      and that event's step is the error. */
  lemma {:induction false} FailingRunStopsAtStep(c: Chain, evs: seq<Event>) returns (i: nat)
    requires |c| > 0 && Run(c, evs).Err?
    ensures i < |evs| && Run(c, evs[..i]).Ok?
    ensures Step(Run(c, evs[..i]).value, evs[i]) == Run(c, evs)
    decreases |evs|
  {
    var step := Step(c, evs[0]);
    if step.Err? {
      i := 0;
      assert evs[..0] == [];
    } else {
      var j := FailingRunStopsAtStep(step.value, evs[1..]);
      i := j + 1;
      assert evs[..i] == [evs[0]] + evs[1..][..j];
      RunAppend(c, [evs[0]], evs[1..][..j]);
      RunOne(c, evs[0]);
    }
  }

  /** A statement that passes analysis read every name it uses only where
      the events before that read left it declared and initialized. */
  lemma StatementReadsInitialized(c: Chain, s: Stmt, i: nat)
    requires |c| > 0 && AnalyzeStatement(c, s).Ok?
    requires i < |Events(s)| && Events(s)[i].Read?
    ensures Run(c, Events(s)[..i]).Ok?
    ensures IsInitialized(Run(c, Events(s)[..i]).value, Events(s)[i].name)
  {
    StatementIsRun(c, s);
    PassingRunReadsInitialized(c, Events(s), i);
  }

  // ---------------------------------------------------------------------
  // The analyzer, case by case

  /** The condition of an `if` is analyzed first, in the enclosing scope;
      its error is the statement's. */
  lemma IfConditionFirst(c: Chain, cond: Expr, t: Stmt, els: Option<Stmt>)
    requires |c| > 0 && AnalyzeExpression(c, cond).Err?
    ensures AnalyzeStatement(c, IfStmt(cond, t, els)) == Err(AnalyzeExpression(c, cond).error)
  {
  }

  /** The then branch runs in a new scope, and its error is the
      statement's. */
  lemma ThenErrorStops(c: Chain, cond: Expr, t: Stmt, els: Option<Stmt>)
    requires |c| > 0 && AnalyzeExpression(c, cond).Ok? && AnalyzeStatement(Push(c), t).Err?
    ensures AnalyzeStatement(c, IfStmt(cond, t, els)) == AnalyzeStatement(Push(c), t)
  {
  }

  /** The else branch runs in the chain the then branch leaves, and the
      statement ends by dropping that shared scope. */
  lemma ElseAfterThen(c: Chain, cond: Expr, t: Stmt, e: Stmt)
    requires |c| > 0 && AnalyzeExpression(c, cond).Ok? && AnalyzeStatement(Push(c), t).Ok?
    ensures var afterElse := AnalyzeStatement(AnalyzeStatement(Push(c), t).value, e);
            AnalyzeStatement(c, IfStmt(cond, t, Some(e))) ==
            if afterElse.Err? then afterElse else Ok(afterElse.value[1..])
  {
  }

  /** Statements run in order, each in the chain the one before leaves. */
  lemma StatementsInSequence(c: Chain, s: Stmt, rest: seq<Stmt>)
    requires |c| > 0
    ensures var first := AnalyzeStatement(c, s);
            AnalyzeStatements(c, [s] + rest) ==
            if first.Err? then first else AnalyzeStatements(first.value, rest)
  {
    assert ([s] + rest)[0] == s && ([s] + rest)[1..] == rest;
  }

  /** A declaration is visible to the statements after it:
      `int x = 1; return x;` passes wherever `x` is new to the innermost
      scope, and leaves it there initialized. */
  lemma DeclarationVisibleLater(c: Chain, x: string, init: string)
    requires |c| > 0 && x !in c[0]
    ensures AnalyzeStatements(c, [VarDecl(x, NumberLit(init)), ReturnStmt(Ident(x))]) == Ok([c[0][x := true]] + c[1..])
  {
    DeclareThenInitialize(c, x);
    var after := [c[0][x := true]] + c[1..];
    assert Nearest(after, x) == Some(0);
    StatementsInSequence(c, VarDecl(x, NumberLit(init)), [ReturnStmt(Ident(x))]);
    StatementsInSequence(after, ReturnStmt(Ident(x)), []);
  }

  /** A function passes exactly when its parameters declare in a new scope
      and its body passes in the chain they leave; the error is the first
      of those to fail, and success leaves the caller's chain as it was. */
  lemma FunctionPassesWithBody(c: Chain, f: string, params: seq<string>, body: Stmt)
    requires |c| > 0
    ensures var withParams := DeclareParameters(Push(c), params);
            var r := Analyze(c, FunctionDecl(f, params, body));
            (r.Ok? <==> withParams.Ok? && AnalyzeStatement(withParams.value, body).Ok?) &&
            (withParams.Err? ==> r == withParams) &&
            (withParams.Ok? && AnalyzeStatement(withParams.value, body).Err? ==> r == AnalyzeStatement(withParams.value, body)) &&
            (r.Ok? ==> r.value == c)
  {
  }
}
