/** A non-backtracking recursive-descent parser over a token index.

    Every parsing function takes the token sequence and the current index
    and returns the node it built with the index just past it, or the error
    that the parser would throw. The token sequence always ends with the
    end-of-file sentinel, as the lexer produces it: without the sentinel the
    past-the-end fallback of `Peek` could return a non-sentinel token for
    ever and the parser would not terminate. */
module Parser {
  import opened Wrappers
  import opened Tokens
  import opened Ast

  predicate ValidTokens(ts: seq<Token>) {
    |ts| > 0 && ts[|ts| - 1].kind.EndOfFile?
  }

  datatype ParseError =
    | Expected(kind: TokenKind, line: int, column: int)
    | UnexpectedStatementToken
    | ExpectedExpression

  /** A parsed node and the index just past it. */
  datatype Parsed<+T> = Parsed(node: T, next: nat)

  // ---------------------------------------------------------------------
  // Cursor primitives

  /** The current token; at or past the end, the last token. */
  function Peek(ts: seq<Token>, pos: nat): (t: Token)
    requires |ts| > 0
    ensures t in ts
    ensures pos < |ts| ==> t == ts[pos]
    ensures pos >= |ts| - 1 ==> t == ts[|ts| - 1]
  {
    if pos >= |ts| then ts[|ts| - 1] else ts[pos]
  }

  /** The current token and the index after it; at or past the end the
      index stays where it is. */
  function Advance(ts: seq<Token>, pos: nat): (r: Parsed<Token>)
    requires |ts| > 0
    ensures r.node == Peek(ts, pos)
    ensures pos <= r.next <= if pos < |ts| then |ts| else pos
    ensures r.next == pos <==> pos >= |ts|
    ensures pos < |ts| ==> r.next == pos + 1
  {
    if pos >= |ts| then Parsed(ts[|ts| - 1], pos) else Parsed(ts[pos], pos + 1)
  }

  /** Whether the current token is the sentinel; past the end, whether the
      last token is. */
  function IsAtEnd(ts: seq<Token>, pos: nat): (b: bool)
    requires |ts| > 0
    ensures pos < |ts| ==> (b <==> ts[pos].kind.EndOfFile?)
    ensures pos >= |ts| - 1 ==> (b <==> ts[|ts| - 1].kind.EndOfFile?)
  {
    Peek(ts, pos).kind.EndOfFile?
  }

  /** Whether the current token has kind `k`; never at the end, whatever
      `k` is. */
  function Check(ts: seq<Token>, pos: nat, k: TokenKind): (b: bool)
    requires |ts| > 0
    ensures IsAtEnd(ts, pos) ==> !b
    ensures b <==> Peek(ts, pos).kind == k && !k.EndOfFile?
  {
    if IsAtEnd(ts, pos) then false else Peek(ts, pos).kind == k
  }

  /** The expected token, or an error at the current token's position. */
  function Consume(ts: seq<Token>, pos: nat, k: TokenKind): (r: Result<Parsed<Token>, ParseError>)
    requires ValidTokens(ts)
    ensures r.Ok? <==> pos < |ts| && ts[pos].kind == k && !k.EndOfFile?
    ensures r.Ok? ==> r.value == Parsed(ts[pos], pos + 1) && pos + 1 < |ts|
    ensures r.Err? ==> r.error == Expected(k, Peek(ts, pos).line, Peek(ts, pos).column)
  {
    if Check(ts, pos, k) then Ok(Advance(ts, pos))
    else Err(Expected(k, Peek(ts, pos).line, Peek(ts, pos).column))
  }

  /** Whether the current token has kind `k`, consuming it if so. */
  function Match(ts: seq<Token>, pos: nat, k: TokenKind): (r: Parsed<bool>)
    requires ValidTokens(ts)
    ensures r.node <==> pos < |ts| && ts[pos].kind == k && !k.EndOfFile?
    ensures r.next == if r.node then pos + 1 else pos
    ensures r.node ==> r.next < |ts|
  {
    if Check(ts, pos, k) then Parsed(true, Advance(ts, pos).next) else Parsed(false, pos)
  }

  // ---------------------------------------------------------------------
  // Operator levels

  /** The operators each binary level loops over, in the order it tries
      them: 1 is comparison, 2 is term, 3 is factor. */
  function Operators(level: nat): seq<TokenKind> {
    if level == 1 then [Greater, GreaterEqual, Less, LessEqual, Equal, NotEqual]
    else if level == 2 then [Plus, Minus]
    else [Multiply, Divide]
  }

  /** The binding strength of a binary operator: 0 for every other kind. */
  function Prec(k: TokenKind): (r: nat)
    ensures r <= 3
    ensures 0 < r <==> IsBinaryOperator(k)
  {
    match k
    case Greater | GreaterEqual | Less | LessEqual | Equal | NotEqual => 1
    case Plus | Minus => 2
    case Multiply | Divide => 3
    case _ => 0
  }

  /** Whether the current token is an operator of `level`, consuming it if
      so. The sentinel has no level, so it is never matched. */
  function MatchOperator(ts: seq<Token>, pos: nat, level: nat): (r: Parsed<bool>)
    requires ValidTokens(ts) && 1 <= level <= 3
    ensures r.next == if r.node then pos + 1 else pos
    ensures r.node ==> r.next < |ts|
  {
    if pos < |ts| && Prec(ts[pos].kind) == level then Parsed(true, pos + 1) else Parsed(false, pos)
  }

  /** `Match` tried on each kind of `ks` in turn, stopping at the first
      success: the variadic match as the parser spells it out. */
  function MatchEach(ts: seq<Token>, pos: nat, ks: seq<TokenKind>): Parsed<bool>
    requires ValidTokens(ts)
    decreases |ks|
  {
    if ks == [] then Parsed(false, pos)
    else
      var m := Match(ts, pos, ks[0]);
      if m.node then m else MatchEach(ts, pos, ks[1..])
  }

  /** Trying the kinds one by one matches exactly when the current kind is
      among them and is not the sentinel, and consumes one token then. */
  lemma {:induction false} MatchEachSpec(ts: seq<Token>, pos: nat, ks: seq<TokenKind>)
    requires ValidTokens(ts)
    ensures MatchEach(ts, pos, ks).node <==> pos < |ts| && ts[pos].kind in ks && !ts[pos].kind.EndOfFile?
    ensures MatchEach(ts, pos, ks).next == if MatchEach(ts, pos, ks).node then pos + 1 else pos
    decreases |ks|
  {
    if ks != [] {
      MatchEachSpec(ts, pos, ks[1..]);
      assert ks == [ks[0]] + ks[1..];
    }
  }

  /** The level tables and the precedence function agree. */
  lemma OperatorsPrec(k: TokenKind, level: nat)
    requires 1 <= level <= 3
    ensures k in Operators(level) <==> Prec(k) == level
  {
  }

  /** Matching a level's table kind by kind is matching an operator of that
      level. */
  lemma MatchEachIsMatchOperator(ts: seq<Token>, pos: nat, level: nat)
    requires ValidTokens(ts) && 1 <= level <= 3
    ensures MatchEach(ts, pos, Operators(level)) == MatchOperator(ts, pos, level)
  {
    MatchEachSpec(ts, pos, Operators(level));
    if pos < |ts| {
      OperatorsPrec(ts[pos].kind, level);
    }
  }

  // ---------------------------------------------------------------------
  // Expressions

  function ParseExpression(ts: seq<Token>, pos: nat): (r: Result<Parsed<Expr>, ParseError>)
    requires ValidTokens(ts) && pos < |ts|
    ensures r.Ok? ==> pos < r.value.next < |ts| && WellFormed(r.value.node)
    decreases |ts| - pos, 10
  {
    ParseBinary(ts, pos, 1)
  }

  /** One binary level: an operand, then a left-associative loop over the
      level's operators. */
  function ParseBinary(ts: seq<Token>, pos: nat, level: nat): (r: Result<Parsed<Expr>, ParseError>)
    requires ValidTokens(ts) && pos < |ts| && 1 <= level <= 3
    ensures r.Ok? ==> pos < r.value.next < |ts| && WellFormed(r.value.node)
    decreases |ts| - pos, 10 - 2 * level
  {
    var left :- ParseOperand(ts, pos, level);
    BinaryLoop(ts, left.next, level, left.node)
  }

  /** The operand of a level: the next tighter level, or a primary
      expression below the factor level. */
  function ParseOperand(ts: seq<Token>, pos: nat, level: nat): (r: Result<Parsed<Expr>, ParseError>)
    requires ValidTokens(ts) && pos < |ts| && 1 <= level <= 3
    ensures r.Ok? ==> pos < r.value.next < |ts| && WellFormed(r.value.node)
    decreases |ts| - pos, 9 - 2 * level
  {
    if level == 3 then ParsePrimary(ts, pos) else ParseBinary(ts, pos, level + 1)
  }

  /** The loop of one level: while the current token is one of the level's
      operators, combine `left` with the next operand. Every node it builds
      carries an operator of this level. */
  function BinaryLoop(ts: seq<Token>, pos: nat, level: nat, left: Expr): (r: Result<Parsed<Expr>, ParseError>)
    requires ValidTokens(ts) && pos < |ts| && 1 <= level <= 3 && WellFormed(left)
    ensures r.Ok? ==> pos <= r.value.next < |ts| && WellFormed(r.value.node)
    decreases |ts| - pos, 0
  {
    var m := MatchOperator(ts, pos, level);
    if !m.node then Ok(Parsed(left, pos))
    else
      var op := ts[m.next - 1].kind;
      var right :- ParseOperand(ts, m.next, level);
      BinaryLoop(ts, right.next, level, Binary(left, op, right.node))
  }

  /** A number, a name, or a parenthesized expression, which adds no node. */
  function ParsePrimary(ts: seq<Token>, pos: nat): (r: Result<Parsed<Expr>, ParseError>)
    requires ValidTokens(ts) && pos < |ts|
    ensures r.Ok? ==> pos < r.value.next < |ts| && WellFormed(r.value.node)
    decreases |ts| - pos, 0
  {
    var number := Match(ts, pos, Number);
    if number.node then Ok(Parsed(NumberLit(ts[number.next - 1].text), number.next))
    else
      var name := Match(ts, pos, Identifier);
      if name.node then Ok(Parsed(Ident(ts[name.next - 1].text), name.next))
      else
        var open := Match(ts, pos, LParen);
        if open.node then
          var e :- ParseExpression(ts, open.next);
          var close :- Consume(ts, e.next, RParen);
          Ok(Parsed(e.node, close.next))
        else
          Err(ExpectedExpression)
  }

  // ---------------------------------------------------------------------
  // Statements

  /** The kinds a statement can start with. */
  predicate StartsStatement(k: TokenKind) {
    k.Return? || k.If? || k.Int?
  }

  /** A statement: chosen by its first token. */
  function ParseStatement(ts: seq<Token>, pos: nat): (r: Result<Parsed<Stmt>, ParseError>)
    requires ValidTokens(ts) && pos < |ts|
    ensures r.Ok? ==> pos < r.value.next < |ts|
    ensures !StartsStatement(ts[pos].kind) ==> r == Err(UnexpectedStatementToken)
    decreases |ts| - pos, 1
  {
    var ret := Match(ts, pos, Return);
    if ret.node then ParseReturn(ts, pos)
    else
      var cond := Match(ts, pos, If);
      if cond.node then ParseIf(ts, pos)
      else
        var decl := Match(ts, pos, Int);
        if decl.node then ParseVarDecl(ts, pos)
        else Err(UnexpectedStatementToken)
  }

  /** `return EXPR ;` */
  function ParseReturn(ts: seq<Token>, pos: nat): (r: Result<Parsed<Stmt>, ParseError>)
    requires ValidTokens(ts) && pos + 1 < |ts| && ts[pos].kind.Return?
    ensures r.Ok? ==> pos < r.value.next < |ts|
    ensures r.Ok? ==>
              && r.value.node.ReturnStmt? && WellFormed(r.value.node.value)
              && ts[r.value.next - 1].kind.Semicolon?
  {
    var e :- ParseExpression(ts, pos + 1);
    var semi :- Consume(ts, e.next, Semicolon);
    Ok(Parsed(ReturnStmt(e.node), semi.next))
  }

  /** `if ( EXPR ) STMT`, optionally followed by `else STMT`. */
  function ParseIf(ts: seq<Token>, pos: nat): (r: Result<Parsed<Stmt>, ParseError>)
    requires ValidTokens(ts) && pos + 1 < |ts| && ts[pos].kind.If?
    ensures r.Ok? ==> pos < r.value.next < |ts| && r.value.node.IfStmt?
    ensures r.Ok? && r.value.node.elseBranch.None? ==> !ts[r.value.next].kind.Else?
    decreases |ts| - pos, 0
  {
    var open :- Consume(ts, pos + 1, LParen);
    var test :- ParseExpression(ts, open.next);
    var close :- Consume(ts, test.next, RParen);
    var thenBranch :- ParseStatement(ts, close.next);
    var other := Match(ts, thenBranch.next, Else);
    if other.node then
      var elseBranch :- ParseStatement(ts, other.next);
      Ok(Parsed(IfStmt(test.node, thenBranch.node, Some(elseBranch.node)), elseBranch.next))
    else
      Ok(Parsed(IfStmt(test.node, thenBranch.node, None), thenBranch.next))
  }

  /** `int NAME = EXPR ;` */
  function ParseVarDecl(ts: seq<Token>, pos: nat): (r: Result<Parsed<Stmt>, ParseError>)
    requires ValidTokens(ts) && pos + 1 < |ts| && ts[pos].kind.Int?
    ensures r.Ok? ==> pos < r.value.next < |ts|
    ensures r.Ok? ==>
              && r.value.node.VarDecl? && r.value.node.name == ts[pos + 1].text
              && WellFormed(r.value.node.init) && ts[r.value.next - 1].kind.Semicolon?
  {
    var name :- Consume(ts, pos + 1, Identifier);
    var eq :- Consume(ts, name.next, Assign);
    var init :- ParseExpression(ts, eq.next);
    var semi :- Consume(ts, init.next, Semicolon);
    Ok(Parsed(VarDecl(name.node.text, init.node), semi.next))
  }

  /** `{`, then statements until a `}` is matched or the end is reached;
      reaching the end first is not an error. */
  function ParseBlock(ts: seq<Token>, pos: nat): (r: Result<Parsed<Stmt>, ParseError>)
    requires ValidTokens(ts) && pos < |ts|
    ensures r.Ok? ==> pos < r.value.next < |ts| && r.value.node.BlockStmt?
    ensures !ts[pos].kind.LBrace? ==> r == Err(Expected(LBrace, ts[pos].line, ts[pos].column))
  {
    var open :- Consume(ts, pos, LBrace);
    var body :- BlockLoop(ts, open.next, []);
    Ok(Parsed(BlockStmt(body.node), body.next))
  }

  /** The statement loop of a block, accumulating into `acc`. */
  function BlockLoop(ts: seq<Token>, pos: nat, acc: seq<Stmt>): (r: Result<Parsed<seq<Stmt>>, ParseError>)
    requires ValidTokens(ts) && pos < |ts|
    ensures r.Ok? ==> pos <= r.value.next < |ts| && acc <= r.value.node
    decreases |ts| - pos
  {
    var close := Match(ts, pos, RBrace);
    if close.node then Ok(Parsed(acc, close.next))
    else if IsAtEnd(ts, pos) then Ok(Parsed(acc, pos))
    else
      var s :- ParseStatement(ts, pos);
      BlockLoop(ts, s.next, acc + [s.node])
  }

  /** A block ends just after its `}` or just before the sentinel. */
  lemma BlockEnds(ts: seq<Token>, pos: nat, block: Stmt, n: nat)
    requires ValidTokens(ts) && pos < |ts| && ParseBlock(ts, pos) == Ok(Parsed(block, n))
    ensures ts[n - 1].kind.RBrace? || ts[n].kind.EndOfFile?
  {
    var body := BlockLoop(ts, pos + 1, []);
    assert body.Ok? && body.value.next == n;
    BlockLoopEnds(ts, pos + 1, [], body.value.node, n);
  }

  lemma {:induction false} BlockLoopEnds(ts: seq<Token>, pos: nat, acc: seq<Stmt>, stmts: seq<Stmt>, n: nat)
    requires ValidTokens(ts) && pos < |ts| && BlockLoop(ts, pos, acc) == Ok(Parsed(stmts, n))
    ensures (pos < n && ts[n - 1].kind.RBrace?) || ts[n].kind.EndOfFile?
    decreases |ts| - pos
  {
    if !ts[pos].kind.RBrace? && !ts[pos].kind.EndOfFile? {
      var s := ParseStatement(ts, pos);
      assert s.Ok?;
      var next, more := s.value.next, acc + [s.value.node];
      assert BlockLoop(ts, next, more) == Ok(Parsed(stmts, n));
      BlockLoopEnds(ts, next, more, stmts, n);
    }
  }

  /** `int NAME ( )` and a block: a function without parameters. */
  function ParseFunction(ts: seq<Token>): (r: Result<Parsed<Stmt>, ParseError>)
    requires ValidTokens(ts)
    ensures r.Ok? ==>
              && |ts| > 5 && ts[0].kind.Int? && ts[1].kind.Identifier?
              && ts[2].kind.LParen? && ts[3].kind.RParen? && ts[4].kind.LBrace?
    ensures r.Ok? ==>
              && r.value.node.FunctionDecl? && r.value.node.name == ts[1].text
              && r.value.node.params == [] && r.value.node.body.BlockStmt?
              && 4 < r.value.next < |ts|
  {
    var kw :- Consume(ts, 0, Int);
    var name :- Consume(ts, kw.next, Identifier);
    var open :- Consume(ts, name.next, LParen);
    var close :- Consume(ts, open.next, RParen);
    var body :- ParseBlock(ts, close.next);
    Ok(Parsed(FunctionDecl(name.node.text, [], body.node), body.next))
  }
}
