/** The statement parser's round trip. Statements, blocks and functions are
    printed as tokens, and parsing the printed tokens gives back the tree;
    conversely every statement the parser builds is one the printer
    handles. Together with the step lemmas below, this says that each
    statement's children are exactly the sub-parses of its tokens. */
module StatementRoundTrip {
  import opened Wrappers
  import opened Tokens
  import opened Ast
  import opened Parser
  import opened Printer
  import opened ParserRoundTrip

  // ---------------------------------------------------------------------
  // Statements from their parts
  //
  // Every position a parser is applied to is a variable of its own, tied to
  // the token before it by an equation.

  /** `return EXPR` is a return statement of that expression when a `;`
      follows, and an expected-`;` error at the next token otherwise. */
  lemma ReturnParts(ts: seq<Token>, pos: nat, a: nat, e: Expr, n: nat)
    requires ValidTokens(ts) && a == pos + 1 && a < |ts| && ts[pos].kind.Return?
    requires ParseExpression(ts, a) == Ok(Parsed(e, n))
    ensures n < |ts|
    ensures ParseStatement(ts, pos) ==
            if ts[n].kind.Semicolon? then Ok(Parsed(ReturnStmt(e), n + 1))
            else Err(Expected(Semicolon, ts[n].line, ts[n].column))
  {
  }

  /** `int NAME = EXPR` declares the name with that initializer when a `;`
      follows, and is an expected-`;` error at the next token otherwise. */
  lemma VarDeclParts(ts: seq<Token>, pos: nat, a: nat, e: Expr, n: nat)
    requires ValidTokens(ts) && a == pos + 3 && a < |ts|
    requires ts[pos].kind.Int? && ts[pos + 1].kind.Identifier? && ts[pos + 2].kind.Assign?
    requires ParseExpression(ts, a) == Ok(Parsed(e, n))
    ensures n < |ts|
    ensures ParseStatement(ts, pos) ==
            if ts[n].kind.Semicolon? then Ok(Parsed(VarDecl(ts[pos + 1].text, e), n + 1))
            else Err(Expected(Semicolon, ts[n].line, ts[n].column))
  {
  }

  /** The if parser's first three steps: `(`, the condition from `a`, and
      the `)` at `n1`. */
  lemma IfHeadParts(ts: seq<Token>, pos: nat, a: nat, c: Expr, n1: nat, close: nat)
    requires ValidTokens(ts) && a == pos + 2 && a < |ts| && ts[pos].kind.If? && ts[pos + 1].kind.LParen?
    requires ParseExpression(ts, a) == Ok(Parsed(c, n1))
    requires close == n1 + 1 && close < |ts| && ts[n1].kind.RParen?
    ensures ParseIf(ts, pos) == IfTail(ts, c, close)
  {
    assert Consume(ts, pos + 1, LParen) == Ok(Parsed(ts[pos + 1], a));
    assert Consume(ts, n1, RParen) == Ok(Parsed(ts[n1], close));
  }

  /** What the if parser does after the `)` at `close - 1`. */
  function IfTail(ts: seq<Token>, c: Expr, close: nat): Result<Parsed<Stmt>, ParseError>
    requires ValidTokens(ts) && close < |ts|
    decreases |ts| - close
  {
    var thenBranch :- ParseStatement(ts, close);
    var other := Match(ts, thenBranch.next, Else);
    if other.node then
      var elseBranch :- ParseStatement(ts, other.next);
      Ok(Parsed(IfStmt(c, thenBranch.node, Some(elseBranch.node)), elseBranch.next))
    else
      Ok(Parsed(IfStmt(c, thenBranch.node, None), thenBranch.next))
  }

  /** `if ( COND ) STMT` not followed by `else` is an if statement of the
      condition and the branch, with no else branch. */
  lemma IfParts(ts: seq<Token>, pos: nat, a: nat, c: Expr, n1: nat, close: nat, t: Stmt, n2: nat)
    requires ValidTokens(ts) && a == pos + 2 && a < |ts| && ts[pos].kind.If? && ts[pos + 1].kind.LParen?
    requires ParseExpression(ts, a) == Ok(Parsed(c, n1))
    requires close == n1 + 1 && close < |ts| && ts[n1].kind.RParen?
    requires ParseStatement(ts, close) == Ok(Parsed(t, n2)) && !ts[n2].kind.Else?
    ensures ParseStatement(ts, pos) == Ok(Parsed(IfStmt(c, t, None), n2))
  {
    Dispatch(ts, pos);
    IfHeadParts(ts, pos, a, c, n1, close);
    NoElseTail(ts, c, close, t, n2);
  }

  /** A then branch not followed by `else` ends the if statement. */
  lemma NoElseTail(ts: seq<Token>, c: Expr, close: nat, t: Stmt, n2: nat)
    requires ValidTokens(ts) && close < |ts| && ParseStatement(ts, close) == Ok(Parsed(t, n2))
    requires !ts[n2].kind.Else?
    ensures IfTail(ts, c, close) == Ok(Parsed(IfStmt(c, t, None), n2))
  {
    assert !Match(ts, n2, Else).node;
  }

  /** `if ( COND ) STMT else STMT` is an if statement of the condition and
      both branches; the `else` is at `n2`. */
  lemma IfElseParts(ts: seq<Token>, pos: nat, a: nat, c: Expr, n1: nat, close: nat, t: Stmt, n2: nat, b: nat, e: Stmt, n3: nat)
    requires ValidTokens(ts) && a == pos + 2 && a < |ts| && ts[pos].kind.If? && ts[pos + 1].kind.LParen?
    requires ParseExpression(ts, a) == Ok(Parsed(c, n1))
    requires close == n1 + 1 && close < |ts| && ts[n1].kind.RParen?
    requires ParseStatement(ts, close) == Ok(Parsed(t, n2)) && ts[n2].kind.Else?
    requires b == n2 + 1 && b < |ts| && ParseStatement(ts, b) == Ok(Parsed(e, n3))
    ensures ParseStatement(ts, pos) == Ok(Parsed(IfStmt(c, t, Some(e)), n3))
  {
    Dispatch(ts, pos);
    IfHeadParts(ts, pos, a, c, n1, close);
    ElseTail(ts, c, close, t, n2, b);
  }

  /** After a then branch ending at an `else`, the if parser's result is
      the else branch's parse from `b`, wrapped. */
  lemma ElseTail(ts: seq<Token>, c: Expr, close: nat, t: Stmt, n2: nat, b: nat)
    requires ValidTokens(ts) && close < |ts| && ParseStatement(ts, close) == Ok(Parsed(t, n2))
    requires ts[n2].kind.Else? && b == n2 + 1 && b < |ts|
    ensures IfTail(ts, c, close) == WithElse(c, t, ParseStatement(ts, b))
  {
    assert Match(ts, n2, Else) == Parsed(true, b);
  }

  function WithElse(c: Expr, t: Stmt, r: Result<Parsed<Stmt>, ParseError>): Result<Parsed<Stmt>, ParseError> {
    match r
    case Ok(Parsed(e, n)) => Ok(Parsed(IfStmt(c, t, Some(e)), n))
    case Err(x) => Err(x)
  }

  /** A block's loop appends the statement that parses at the current
      token, when that is neither `}` nor the sentinel, and goes on after
      it. */
  lemma BlockLoopParts(ts: seq<Token>, pos: nat, acc: seq<Stmt>, s: Stmt, n: nat)
    requires ValidTokens(ts) && pos < |ts| && !ts[pos].kind.RBrace? && !ts[pos].kind.EndOfFile?
    requires ParseStatement(ts, pos) == Ok(Parsed(s, n))
    ensures BlockLoop(ts, pos, acc) == BlockLoop(ts, n, acc + [s])
  {
  }

  /** A block's loop stops just after a `}` and just before the sentinel. */
  lemma BlockLoopStops(ts: seq<Token>, pos: nat, acc: seq<Stmt>)
    requires ValidTokens(ts) && pos < |ts|
    ensures ts[pos].kind.RBrace? ==> BlockLoop(ts, pos, acc) == Ok(Parsed(acc, pos + 1))
    ensures ts[pos].kind.EndOfFile? ==> BlockLoop(ts, pos, acc) == Ok(Parsed(acc, pos))
  {
  }

  /** A block is the statements its loop reads after the `{`, or the
      loop's error. */
  lemma BlockParts(ts: seq<Token>, pos: nat, a: nat)
    requires ValidTokens(ts) && a == pos + 1 && a < |ts| && ts[pos].kind.LBrace?
    ensures ParseBlock(ts, pos) == AsBlock(BlockLoop(ts, a, []))
  {
    assert Consume(ts, pos, LBrace) == Ok(Parsed(ts[pos], a));
  }

  function AsBlock(r: Result<Parsed<seq<Stmt>>, ParseError>): Result<Parsed<Stmt>, ParseError> {
    match r
    case Ok(Parsed(ss, n)) => Ok(Parsed(BlockStmt(ss), n))
    case Err(e) => Err(e)
  }

  /** Statements that parse one after another, the i-th from `ps[i]` to
      `ps[i + 1]`, up to a `}` or the sentinel at the last position, are
      exactly what a block's loop reads from `ps[0]`. */
  lemma {:induction false} BlockLoopReads(ts: seq<Token>, ps: seq<nat>, ss: seq<Stmt>, acc: seq<Stmt>)
    requires ValidTokens(ts) && |ps| == |ss| + 1 && ps[|ss|] < |ts|
    requires forall i :: 0 <= i < |ss| ==> ps[i] < |ts| && ParseStatement(ts, ps[i]) == Ok(Parsed(ss[i], ps[i + 1]))
    requires ts[ps[|ss|]].kind.RBrace? || ts[ps[|ss|]].kind.EndOfFile?
    ensures BlockLoop(ts, ps[0], acc) == Ok(Parsed(acc + ss, if ts[ps[|ss|]].kind.RBrace? then ps[|ss|] + 1 else ps[|ss|]))
    decreases |ss|
  {
    if ss == [] {
      BlockLoopStops(ts, ps[0], acc);
      assert acc + ss == acc;
    } else {
      var ps', ss' := ShiftParses(ts, ps, ss);
      BlockLoopParts(ts, ps[0], acc, ss[0], ps'[0]);
      BlockLoopReads(ts, ps', ss', acc + [ss[0]]);
      Regroup(acc, ss);
    }
  }

  /** The first parse, and the parses after it, again one after another. */
  lemma ShiftParses(ts: seq<Token>, ps: seq<nat>, ss: seq<Stmt>) returns (ps': seq<nat>, ss': seq<Stmt>)
    requires ValidTokens(ts) && |ps| == |ss| + 1 && ss != []
    requires forall i :: 0 <= i < |ss| ==> ps[i] < |ts| && ParseStatement(ts, ps[i]) == Ok(Parsed(ss[i], ps[i + 1]))
    ensures ps' == ps[1..] && ss' == ss[1..] && |ps'| == |ss'| + 1 && ps'[|ss'|] == ps[|ss|]
    ensures ps[0] < |ts| && ParseStatement(ts, ps[0]) == Ok(Parsed(ss[0], ps'[0]))
    ensures forall i :: 0 <= i < |ss'| ==> ps'[i] < |ts| && ParseStatement(ts, ps'[i]) == Ok(Parsed(ss'[i], ps'[i + 1]))
  {
    ps', ss' := ps[1..], ss[1..];
    forall i | 0 <= i < |ss'|
      ensures ps'[i] < |ts| && ParseStatement(ts, ps'[i]) == Ok(Parsed(ss'[i], ps'[i + 1]))
    {
      assert ps'[i] == ps[i + 1] && ps'[i + 1] == ps[i + 2] && ss'[i] == ss[i + 1];
    }
  }

  /** A block whose statements parse one after another from just after its
      `{` holds exactly those statements; it ends just after a `}` or, when
      the sentinel comes first, just before the sentinel. */
  lemma BlockReads(ts: seq<Token>, pos: nat, ps: seq<nat>, ss: seq<Stmt>)
    requires ValidTokens(ts) && pos < |ts| && ts[pos].kind.LBrace?
    requires |ps| == |ss| + 1 && ps[0] == pos + 1 && ps[|ss|] < |ts|
    requires forall i :: 0 <= i < |ss| ==> ps[i] < |ts| && ParseStatement(ts, ps[i]) == Ok(Parsed(ss[i], ps[i + 1]))
    requires ts[ps[|ss|]].kind.RBrace? || ts[ps[|ss|]].kind.EndOfFile?
    ensures ParseBlock(ts, pos) == Ok(Parsed(BlockStmt(ss), if ts[ps[|ss|]].kind.RBrace? then ps[|ss|] + 1 else ps[|ss|]))
  {
    BlockLoopReads(ts, ps, ss, []);
    assert [] + ss == ss;
    BlockParts(ts, pos, ps[0]);
  }

  /** A function is the block after `int NAME ( )`, named by the name. */
  lemma FunctionParts(ts: seq<Token>, body: Stmt, n: nat)
    requires ValidTokens(ts) && 4 < |ts|
    requires ts[0].kind.Int? && ts[1].kind.Identifier? && ts[2].kind.LParen? && ts[3].kind.RParen?
    requires ParseBlock(ts, 4) == Ok(Parsed(body, n))
    ensures ParseFunction(ts) == Ok(Parsed(FunctionDecl(ts[1].text, [], body), n))
  {
  }

  // ---------------------------------------------------------------------
  // The statements the parser builds

  /** An `if` whose last branch has no `else`: an `else` right after it
      would be taken by that innermost `if`. */
  predicate OpenEnded(s: Stmt) {
    match s
    case IfStmt(_, _, None) => true
    case IfStmt(_, _, Some(e)) => OpenEnded(e)
    case _ => false
  }

  /** A return, a declaration or an `if` over well-formed expressions. The
      then branch of an `if` that has an `else` is never open-ended, since
      that `else` would belong to the inner `if`. Blocks and functions are
      not statements of this grammar. */
  predicate IsStatement(s: Stmt) {
    match s
    case ReturnStmt(e) => WellFormed(e)
    case VarDecl(_, e) => WellFormed(e)
    case IfStmt(c, t, None) => WellFormed(c) && IsStatement(t)
    case IfStmt(c, t, Some(e)) => WellFormed(c) && IsStatement(t) && !OpenEnded(t) && IsStatement(e)
    case _ => false
  }

  predicate AllStatements(ss: seq<Stmt>) {
    forall i :: 0 <= i < |ss| ==> IsStatement(ss[i])
  }

  /** Every statement the parser builds is a statement of the grammar, and
      one that ends open is never followed by `else`. */
  lemma {:induction false} ParsedIsStatement(ts: seq<Token>, pos: nat, s: Stmt, n: nat)
    requires ValidTokens(ts) && pos < |ts| && ParseStatement(ts, pos) == Ok(Parsed(s, n))
    ensures n < |ts| && IsStatement(s) && (OpenEnded(s) ==> !ts[n].kind.Else?)
    decreases |ts| - pos, 1
  {
    if ts[pos].kind.If? {
      var c, close := IfHeadShape(ts, pos, s, n);
      ParsedTailIsStatement(ts, c, close, s, n);
    } else {
      Dispatch(ts, pos);
    }
  }


  lemma {:induction false} ParsedTailIsStatement(ts: seq<Token>, c: Expr, close: nat, s: Stmt, n: nat)
    requires ValidTokens(ts) && close < |ts| && WellFormed(c) && IfTail(ts, c, close) == Ok(Parsed(s, n))
    ensures n < |ts| && IsStatement(s) && (OpenEnded(s) ==> !ts[n].kind.Else?)
    decreases |ts| - close + 1, 0
  {
    var t, n2, b := IfTailShape(ts, c, close, s, n);
    ParsedIsStatement(ts, close, t, n2);
    if ts[n2].kind.Else? {
      ParsedIsStatement(ts, b, s.elseBranch.value, n);
    }
  }

  /** The statement parser hands each statement to the parser its first
      token names. */
  lemma Dispatch(ts: seq<Token>, pos: nat)
    requires ValidTokens(ts) && pos < |ts|
    ensures ts[pos].kind.Return? ==> pos + 1 < |ts| && ParseStatement(ts, pos) == ParseReturn(ts, pos)
    ensures ts[pos].kind.If? ==> pos + 1 < |ts| && ParseStatement(ts, pos) == ParseIf(ts, pos)
    ensures ts[pos].kind.Int? ==> pos + 1 < |ts| && ParseStatement(ts, pos) == ParseVarDecl(ts, pos)
  {
  }

  /** A parsed `if` has a condition ending at a `)`, and the rest is what
      the if parser does after that `)`, from `close`. */
  lemma IfHeadShape(ts: seq<Token>, pos: nat, s: Stmt, n: nat) returns (c: Expr, close: nat)
    requires ValidTokens(ts) && pos < |ts| && ts[pos].kind.If? && ParseStatement(ts, pos) == Ok(Parsed(s, n))
    ensures pos < close < |ts| && WellFormed(c)
    ensures IfTail(ts, c, close) == Ok(Parsed(s, n))
  {
    Dispatch(ts, pos);
    var a := pos + 2;
    assert Consume(ts, pos + 1, LParen) == Ok(Parsed(ts[pos + 1], a));
    var test := ParseExpression(ts, a);
    assert test.Ok?;
    var n1 := test.value.next;
    c, close := test.value.node, n1 + 1;
    assert Consume(ts, n1, RParen).Ok?;
    IfHeadParts(ts, pos, a, c, n1, close);
  }

  /** After the `)`, a parsed `if` has a then branch ending at `n2`, and,
      when an `else` stands there, an else branch from `b`. */
  lemma IfTailShape(ts: seq<Token>, c: Expr, close: nat, s: Stmt, n: nat) returns (t: Stmt, n2: nat, b: nat)
    requires ValidTokens(ts) && close < |ts| && IfTail(ts, c, close) == Ok(Parsed(s, n))
    ensures ParseStatement(ts, close) == Ok(Parsed(t, n2)) && b == n2 + 1
    ensures s.IfStmt? && s.cond == c && s.thenBranch == t
    ensures ts[n2].kind.Else? ==>
              && b < |ts| && s.elseBranch.Some?
              && ParseStatement(ts, b) == Ok(Parsed(s.elseBranch.value, n))
    ensures !ts[n2].kind.Else? ==> s.elseBranch.None? && n == n2
  {
    var th := ParseStatement(ts, close);
    assert th.Ok?;
    t, n2 := th.value.node, th.value.next;
    b := n2 + 1;
    if ts[n2].kind.Else? {
      ElseTail(ts, c, close, t, n2, b);
    } else {
      NoElseTail(ts, c, close, t, n2);
    }
  }

  // ---------------------------------------------------------------------
  // The printer

  /** The tokens of a statement, with every expression printed with the
      fewest parentheses. */
  function PrintStmt(s: Stmt): seq<Token>
    requires IsStatement(s)
    decreases s, 1
  {
    match s
    case ReturnStmt(e) => [Tok(Return, "return")] + Print(e, 1) + [Tok(Semicolon, ";")]
    case VarDecl(n, e) => [Tok(Int, "int"), Tok(Identifier, n), Tok(Assign, "=")] + Print(e, 1) + [Tok(Semicolon, ";")]
    case IfStmt(c, t, els) => PrintIf(c, t, els)
  }

  function PrintIf(c: Expr, t: Stmt, els: Option<Stmt>): seq<Token>
    requires IsStatement(IfStmt(c, t, els))
    decreases IfStmt(c, t, els), 0
  {
    var head := IfHead(c) + PrintStmt(t);
    match els
    case None => head
    case Some(e) => head + [Tok(Else, "else")] + PrintStmt(e)
  }

  /** `if ( COND )` */
  function IfHead(c: Expr): seq<Token> {
    [Tok(If, "if"), Tok(LParen, "(")] + Print(c, 1) + [Tok(RParen, ")")]
  }

  function PrintStmts(ss: seq<Stmt>): seq<Token>
    requires AllStatements(ss)
    decreases |ss|
  {
    if ss == [] then [] else PrintStmt(ss[0]) + PrintStmts(ss[1..])
  }

  function PrintBlock(ss: seq<Stmt>): seq<Token>
    requires AllStatements(ss)
  {
    [Tok(LBrace, "{")] + PrintStmts(ss) + [Tok(RBrace, "}")]
  }

  /** `int NAME ( )` and the block. */
  function PrintFunction(name: string, ss: seq<Stmt>): seq<Token>
    requires AllStatements(ss)
  {
    [Tok(Int, "int"), Tok(Identifier, name), Tok(LParen, "("), Tok(RParen, ")")] + PrintBlock(ss)
  }

  // ---------------------------------------------------------------------
  // Where printed pieces stand

  lemma AtSplit(ts: seq<Token>, q: nat, a: seq<Token>, b: seq<Token>, m: nat)
    requires At(ts, q, a + b) && m == q + |a|
    ensures At(ts, q, a) && At(ts, m, b)
  {
    forall i | 0 <= i < |a|
      ensures Like(ts[q + i], a[i])
    {
      assert (a + b)[i] == a[i];
    }
    forall i | 0 <= i < |b|
      ensures Like(ts[m + i], b[i])
    {
      assert (a + b)[|a| + i] == b[i];
    }
  }

  lemma AtOne(ts: seq<Token>, q: nat, t: Token)
    requires At(ts, q, [t])
    ensures q < |ts| && Like(ts[q], t)
  {
    assert [t][0] == t;
  }

  /** Where the pieces of `o + p + [z]` stand: `p` at `m`, `z` at `n`. */
  lemma Around(ts: seq<Token>, q: nat, o: seq<Token>, p: seq<Token>, z: Token, m: nat, n: nat)
    requires At(ts, q, o + p + [z]) && m == q + |o| && n == m + |p|
    ensures At(ts, q, o) && At(ts, m, p) && n < |ts| && Like(ts[n], z)
  {
    AtSplit(ts, q, o + p, [z], n);
    AtSplit(ts, q, o, p, m);
    AtOne(ts, n, z);
  }

  /** Where the pieces of `b + [z] + d` stand: `z` at `n`, `d` after it. */
  lemma AroundElse(ts: seq<Token>, q: nat, b: seq<Token>, z: Token, d: seq<Token>, n: nat)
    requires At(ts, q, b + [z] + d) && n == q + |b|
    ensures At(ts, q, b) && n < |ts| && Like(ts[n], z) && At(ts, n + 1, d)
  {
    AtSplit(ts, q, b + [z], d, n + 1);
    AtSplit(ts, q, b, [z], n);
    AtOne(ts, n, z);
  }

  /** A printed statement starts with `return`, `if` or `int`. */
  lemma StmtStart(s: Stmt)
    requires IsStatement(s)
    ensures |PrintStmt(s)| > 0 && StartsStatement(PrintStmt(s)[0].kind)
  {
    if s.IfStmt? {
      var w := PrintStmt(s);
      assert w == IfHead(s.cond) + (w[|IfHead(s.cond)|..]);
      assert w[0] == IfHead(s.cond)[0];
    }
  }

  /** Where the first of some printed statements stands, and the rest; the
      token after the first is never `else`, as it starts the next
      statement or is the closing `}` or sentinel at `e`. */
  lemma FirstAt(ts: seq<Token>, p: nat, ss: seq<Stmt>, e: nat) returns (m: nat)
    requires AllStatements(ss) && ss != [] && At(ts, p, PrintStmts(ss)) && e == p + |PrintStmts(ss)| && e < |ts|
    requires ts[e].kind.RBrace? || ts[e].kind.EndOfFile?
    ensures m == p + |PrintStmt(ss[0])| && e == m + |PrintStmts(ss[1..])| && m < |ts|
    ensures At(ts, p, PrintStmt(ss[0])) && At(ts, m, PrintStmts(ss[1..]))
    ensures StartsStatement(ts[p].kind) && !ts[m].kind.Else?
  {
    var w0, rest := PrintStmt(ss[0]), PrintStmts(ss[1..]);
    m := p + |w0|;
    AtSplit(ts, p, w0, rest, m);
    StmtStart(ss[0]);
    assert Like(ts[p], w0[0]);
    if ss[1..] != [] {
      StmtStart(ss[1]);
      assert rest[0] == PrintStmt(ss[1..][0])[0];
      assert Like(ts[m], rest[0]);
    }
  }

  // ---------------------------------------------------------------------
  // Printing, then parsing

  lemma ReturnRoundTrip(ts: seq<Token>, q: nat, e: Expr, n: nat)
    requires ValidTokens(ts) && WellFormed(e)
    requires At(ts, q, PrintStmt(ReturnStmt(e))) && n == q + |PrintStmt(ReturnStmt(e))| && n < |ts|
    ensures ParseStatement(ts, q) == Ok(Parsed(ReturnStmt(e), n))
  {
    var a := ReturnHeadAt(ts, q, e, n);
    PrintThenParse(ts, a, e);
    ReturnParts(ts, q, a, e, n - 1);
  }

  /** Where the value of a printed return stands, and its `;`. */
  lemma ReturnHeadAt(ts: seq<Token>, q: nat, e: Expr, n: nat) returns (a: nat)
    requires WellFormed(e)
    requires At(ts, q, PrintStmt(ReturnStmt(e))) && n == q + |PrintStmt(ReturnStmt(e))| && n < |ts|
    ensures a == q + 1 && n == a + |Print(e, 1)| + 1
    ensures Like(ts[q], Tok(Return, "return")) && At(ts, a, Print(e, 1)) && Like(ts[n - 1], Tok(Semicolon, ";"))
  {
    var o, p := [Tok(Return, "return")], Print(e, 1);
    a := q + 1;
    Around(ts, q, o, p, Tok(Semicolon, ";"), a, a + |p|);
    assert o[0] == Tok(Return, "return");
  }

  lemma VarDeclRoundTrip(ts: seq<Token>, q: nat, x: string, e: Expr, n: nat)
    requires ValidTokens(ts) && WellFormed(e)
    requires At(ts, q, PrintStmt(VarDecl(x, e))) && n == q + |PrintStmt(VarDecl(x, e))| && n < |ts|
    ensures ParseStatement(ts, q) == Ok(Parsed(VarDecl(x, e), n))
  {
    var a := DeclHeadAt(ts, q, x, e, n);
    PrintThenParse(ts, a, e);
    VarDeclParts(ts, q, a, e, n - 1);
  }

  /** Where the initializer of a printed declaration stands, and its `;`. */
  lemma DeclHeadAt(ts: seq<Token>, q: nat, x: string, e: Expr, n: nat) returns (a: nat)
    requires WellFormed(e)
    requires At(ts, q, PrintStmt(VarDecl(x, e))) && n == q + |PrintStmt(VarDecl(x, e))| && n < |ts|
    ensures a == q + 3 && n == a + |Print(e, 1)| + 1 && n - 1 < |ts|
    ensures Like(ts[q], Tok(Int, "int")) && Like(ts[q + 1], Tok(Identifier, x)) && Like(ts[q + 2], Tok(Assign, "="))
    ensures At(ts, a, Print(e, 1)) && Like(ts[n - 1], Tok(Semicolon, ";"))
  {
    var o, p := [Tok(Int, "int"), Tok(Identifier, x), Tok(Assign, "=")], Print(e, 1);
    a := q + 3;
    Around(ts, q, o, p, Tok(Semicolon, ";"), a, a + |p|);
    assert o[0] == Tok(Int, "int") && o[1] == Tok(Identifier, x) && o[2] == Tok(Assign, "=");
  }

  /** Wherever a printed statement occurs, followed by any token (other
      than `else` when the statement ends open) at `n`, the statement
      parser reads that statement back and stops at `n`. */
  lemma {:induction false} StatementRoundTrip(ts: seq<Token>, q: nat, s: Stmt, n: nat)
    requires ValidTokens(ts) && IsStatement(s)
    requires At(ts, q, PrintStmt(s)) && n == q + |PrintStmt(s)| && n < |ts|
    requires OpenEnded(s) ==> !ts[n].kind.Else?
    ensures ParseStatement(ts, q) == Ok(Parsed(s, n))
    decreases s, 4
  {
    match s
    case ReturnStmt(e) => ReturnRoundTrip(ts, q, e, n);
    case VarDecl(x, e) => VarDeclRoundTrip(ts, q, x, e, n);
    case IfStmt(c, t, None) => IfRoundTrip(ts, q, c, t, n);
    case IfStmt(c, t, Some(e)) => IfElseRoundTrip(ts, q, c, t, e, n);
  }

  /** `if ( COND ) STMT` round trip, ending at `n`. */
  lemma {:induction false} IfRoundTrip(ts: seq<Token>, q: nat, c: Expr, t: Stmt, n: nat)
    requires ValidTokens(ts) && WellFormed(c) && IsStatement(t)
    requires At(ts, q, PrintStmt(IfStmt(c, t, None))) && n == q + |PrintStmt(IfStmt(c, t, None))|
    requires n < |ts| && !ts[n].kind.Else?
    ensures ParseStatement(ts, q) == Ok(Parsed(IfStmt(c, t, None), n))
    decreases IfStmt(c, t, None), 2
  {
    assert PrintStmt(IfStmt(c, t, None)) == IfHead(c) + PrintStmt(t);
    var close := IfAt(ts, q, c, PrintStmt(t));
    var a := q + 2;
    PrintThenParse(ts, a, c);
    IfTailRoundTrip(ts, q, a, c, close - 1, close, t, n);
  }

  /** Where the pieces of a printed `if ( COND ) REST` stand: the condition
      from `q + 2`, the `)` just before `close`, and the rest from
      `close`. */
  lemma IfAt(ts: seq<Token>, q: nat, c: Expr, rest: seq<Token>) returns (close: nat)
    requires At(ts, q, IfHead(c) + rest)
    ensures close == q + 3 + |Print(c, 1)| && close <= |ts|
    ensures ts[q].kind == If && ts[q + 1].kind == LParen && ts[close - 1].kind == RParen
    ensures At(ts, q + 2, Print(c, 1)) && At(ts, close, rest)
  {
    close := q + |IfHead(c)|;
    AtSplit(ts, q, IfHead(c), rest, close);
    var o := [Tok(If, "if"), Tok(LParen, "(")];
    Around(ts, q, o, Print(c, 1), Tok(RParen, ")"), q + 2, close - 1);
    assert o[0] == Tok(If, "if") && o[1] == Tok(LParen, "(");
  }

  lemma {:induction false} IfTailRoundTrip(ts: seq<Token>, q: nat, a: nat, c: Expr, n1: nat, close: nat, t: Stmt, n: nat)
    requires ValidTokens(ts) && IsStatement(t) && a == q + 2 && a < |ts| && ts[q].kind.If? && ts[q + 1].kind.LParen?
    requires ParseExpression(ts, a) == Ok(Parsed(c, n1))
    requires close == n1 + 1 && close < |ts| && ts[n1].kind.RParen?
    requires At(ts, close, PrintStmt(t)) && n == close + |PrintStmt(t)| && n < |ts| && !ts[n].kind.Else?
    ensures ParseStatement(ts, q) == Ok(Parsed(IfStmt(c, t, None), n))
    decreases IfStmt(c, t, None), 1
  {
    StatementRoundTrip(ts, close, t, n);
    IfParts(ts, q, a, c, n1, close, t, n);
  }

  /** `if ( COND ) STMT else STMT` round trip, ending at `n`. */
  lemma {:induction false} IfElseRoundTrip(ts: seq<Token>, q: nat, c: Expr, t: Stmt, e: Stmt, n: nat)
    requires ValidTokens(ts) && WellFormed(c) && IsStatement(t) && !OpenEnded(t) && IsStatement(e)
    requires At(ts, q, PrintStmt(IfStmt(c, t, Some(e)))) && n == q + |PrintStmt(IfStmt(c, t, Some(e)))|
    requires n < |ts| && (OpenEnded(e) ==> !ts[n].kind.Else?)
    ensures ParseStatement(ts, q) == Ok(Parsed(IfStmt(c, t, Some(e)), n))
    decreases IfStmt(c, t, Some(e)), 3
  {
    var rest := PrintStmt(t) + [Tok(Else, "else")] + PrintStmt(e);
    assert PrintStmt(IfStmt(c, t, Some(e))) == IfHead(c) + rest;
    var close := IfAt(ts, q, c, rest);
    var a := q + 2;
    PrintThenParse(ts, a, c);
    IfElseTailRoundTrip(ts, q, a, c, close - 1, close, t, e, n);
  }

  lemma {:induction false} IfElseTailRoundTrip(ts: seq<Token>, q: nat, a: nat, c: Expr, n1: nat, close: nat, t: Stmt, e: Stmt, n: nat)
    requires ValidTokens(ts) && IsStatement(t) && !OpenEnded(t) && IsStatement(e)
    requires a == q + 2 && a < |ts| && ts[q].kind.If? && ts[q + 1].kind.LParen?
    requires ParseExpression(ts, a) == Ok(Parsed(c, n1))
    requires close == n1 + 1 && close < |ts| && ts[n1].kind.RParen?
    requires At(ts, close, PrintStmt(t) + [Tok(Else, "else")] + PrintStmt(e))
    requires n == close + |PrintStmt(t)| + 1 + |PrintStmt(e)| && n < |ts| && (OpenEnded(e) ==> !ts[n].kind.Else?)
    ensures ParseStatement(ts, q) == Ok(Parsed(IfStmt(c, t, Some(e)), n))
    decreases IfStmt(c, t, Some(e)), 2
  {
    var n2 := close + |PrintStmt(t)|;
    AroundElse(ts, close, PrintStmt(t), Tok(Else, "else"), PrintStmt(e), n2);
    StatementRoundTrip(ts, close, t, n2);
    IfElseLastRoundTrip(ts, q, a, c, n1, close, t, n2, n2 + 1, e, n);
  }

  lemma {:induction false} IfElseLastRoundTrip(ts: seq<Token>, q: nat, a: nat, c: Expr, n1: nat, close: nat, t: Stmt, n2: nat, b: nat, e: Stmt, n: nat)
    requires ValidTokens(ts) && IsStatement(e)
    requires a == q + 2 && a < |ts| && ts[q].kind.If? && ts[q + 1].kind.LParen?
    requires ParseExpression(ts, a) == Ok(Parsed(c, n1))
    requires close == n1 + 1 && close < |ts| && ts[n1].kind.RParen?
    requires ParseStatement(ts, close) == Ok(Parsed(t, n2)) && ts[n2].kind.Else?
    requires b == n2 + 1 && At(ts, b, PrintStmt(e)) && n == b + |PrintStmt(e)| && n < |ts|
    requires OpenEnded(e) ==> !ts[n].kind.Else?
    ensures ParseStatement(ts, q) == Ok(Parsed(IfStmt(c, t, Some(e)), n))
    decreases IfStmt(c, t, Some(e)), 1
  {
    StatementRoundTrip(ts, b, e, n);
    IfElseParts(ts, q, a, c, n1, close, t, n2, b, e, n);
  }

  /** Printed statements followed by `}` or the sentinel at `e` are read by
      a block's loop in order, up to and including the `}`. */
  lemma {:induction false} StatementsRoundTrip(ts: seq<Token>, p: nat, ss: seq<Stmt>, acc: seq<Stmt>, e: nat)
    requires ValidTokens(ts) && AllStatements(ss)
    requires At(ts, p, PrintStmts(ss)) && e == p + |PrintStmts(ss)| && e < |ts|
    requires ts[e].kind.RBrace? || ts[e].kind.EndOfFile?
    ensures BlockLoop(ts, p, acc) == Ok(Parsed(acc + ss, if ts[e].kind.RBrace? then e + 1 else e))
    decreases |ss|
  {
    if ss == [] {
      BlockLoopStops(ts, p, acc);
      assert acc + ss == acc;
    } else {
      var m := FirstAt(ts, p, ss, e);
      var s0, rest, more := ss[0], ss[1..], acc + [ss[0]];
      LoopRoundTrip(ts, p, s0, acc, m);
      StatementsRoundTrip(ts, m, rest, more, e);
      Regroup(acc, ss);
    }
  }

  /** One turn of a block's loop over a printed statement. */
  lemma LoopRoundTrip(ts: seq<Token>, p: nat, s: Stmt, acc: seq<Stmt>, m: nat)
    requires ValidTokens(ts) && IsStatement(s) && p < |ts| && StartsStatement(ts[p].kind)
    requires At(ts, p, PrintStmt(s)) && m == p + |PrintStmt(s)| && m < |ts| && !ts[m].kind.Else?
    ensures BlockLoop(ts, p, acc) == BlockLoop(ts, m, acc + [s])
  {
    StatementRoundTrip(ts, p, s, m);
    BlockLoopParts(ts, p, acc, s, m);
  }

  lemma Regroup(acc: seq<Stmt>, ss: seq<Stmt>)
    requires ss != []
    ensures acc + [ss[0]] + ss[1..] == acc + ss
  {
    assert ss == [ss[0]] + ss[1..];
  }

  /** A printed block is read back as a block of the same statements; the
      `}` at `e` may be the sentinel instead. */
  lemma BlockRoundTrip(ts: seq<Token>, q: nat, ss: seq<Stmt>, e: nat)
    requires ValidTokens(ts) && AllStatements(ss)
    requires At(ts, q, [Tok(LBrace, "{")] + PrintStmts(ss)) && e == q + 1 + |PrintStmts(ss)| && e < |ts|
    requires ts[e].kind.RBrace? || ts[e].kind.EndOfFile?
    ensures ParseBlock(ts, q) == Ok(Parsed(BlockStmt(ss), if ts[e].kind.RBrace? then e + 1 else e))
  {
    var a := q + 1;
    AtSplit(ts, q, [Tok(LBrace, "{")], PrintStmts(ss), a);
    AtOne(ts, q, Tok(LBrace, "{"));
    StatementsRoundTrip(ts, a, ss, [], e);
    assert [] + ss == ss;
    BlockParts(ts, q, a);
  }

  /** Wherever a printed function starts the tokens, the function parser
      reads it back and stops just after its `}`, whatever follows. */
  lemma FunctionRoundTrip(ts: seq<Token>, name: string, ss: seq<Stmt>)
    requires ValidTokens(ts) && AllStatements(ss)
    requires At(ts, 0, PrintFunction(name, ss)) && |PrintFunction(name, ss)| < |ts|
    ensures ParseFunction(ts) == Ok(Parsed(FunctionDecl(name, [], BlockStmt(ss)), |PrintFunction(name, ss)|))
  {
    var o := [Tok(Int, "int"), Tok(Identifier, name), Tok(LParen, "("), Tok(RParen, ")")];
    var body := [Tok(LBrace, "{")] + PrintStmts(ss);
    var e := 4 + |body|;
    assert PrintFunction(name, ss) == o + body + [Tok(RBrace, "}")];
    Around(ts, 0, o, body, Tok(RBrace, "}"), 4, e);
    assert Like(ts[0], o[0]) && Like(ts[1], o[1]) && Like(ts[2], o[2]) && Like(ts[3], o[3]);
    BlockRoundTrip(ts, 4, ss, e);
    FunctionParts(ts, BlockStmt(ss), e + 1);
  }

  // ---------------------------------------------------------------------
  // Consequences

  /** Printed tokens closed by the sentinel stand at the front. */
  lemma Closed(w: seq<Token>)
    ensures var ts := w + [Tok(EndOfFile, "")];
            ValidTokens(ts) && At(ts, 0, w) && |w| < |ts| && ts[|w|] == Tok(EndOfFile, "")
  {
    AtFront(w, [Tok(EndOfFile, "")]);
  }

  /** A printed statement, closed by the sentinel, parses back to itself. */
  lemma StatementParses(s: Stmt)
    requires IsStatement(s)
    ensures var w := PrintStmt(s);
            ParseStatement(w + [Tok(EndOfFile, "")], 0) == Ok(Parsed(s, |w|))
  {
    var w := PrintStmt(s);
    Closed(w);
    StatementRoundTrip(w + [Tok(EndOfFile, "")], 0, s, |w|);
  }

  /** Two statements with the same printed tokens are the same statement. */
  lemma PrintStmtInjective(a: Stmt, b: Stmt)
    requires IsStatement(a) && IsStatement(b) && PrintStmt(a) == PrintStmt(b)
    ensures a == b
  {
    StatementParses(a);
    StatementParses(b);
  }

  /** A statement the parser builds, printed again, parses back to itself. */
  lemma ReparseStatement(ts: seq<Token>, pos: nat, s: Stmt, n: nat)
    requires ValidTokens(ts) && pos < |ts| && ParseStatement(ts, pos) == Ok(Parsed(s, n))
    ensures IsStatement(s)
    ensures ParseStatement(PrintStmt(s) + [Tok(EndOfFile, "")], 0) == Ok(Parsed(s, |PrintStmt(s)|))
  {
    ParsedIsStatement(ts, pos, s, n);
    StatementParses(s);
  }

  /** A printed program, closed by the sentinel, parses back to the
      function with its statements. */
  lemma ProgramParses(name: string, ss: seq<Stmt>)
    requires AllStatements(ss)
    ensures var w := PrintFunction(name, ss);
            ParseFunction(w + [Tok(EndOfFile, "")]) == Ok(Parsed(FunctionDecl(name, [], BlockStmt(ss)), |w|))
  {
    var w := PrintFunction(name, ss);
    Closed(w);
    FunctionRoundTrip(w + [Tok(EndOfFile, "")], name, ss);
  }

  /** A block that runs into the sentinel before its `}` holds every
      statement before the sentinel and ends there. */
  lemma UnclosedBlockParses(ss: seq<Stmt>)
    requires AllStatements(ss)
    ensures var w := [Tok(LBrace, "{")] + PrintStmts(ss);
            ParseBlock(w + [Tok(EndOfFile, "")], 0) == Ok(Parsed(BlockStmt(ss), |w|))
  {
    var w := [Tok(LBrace, "{")] + PrintStmts(ss);
    Closed(w);
    BlockRoundTrip(w + [Tok(EndOfFile, "")], 0, ss, |w|);
  }
}
