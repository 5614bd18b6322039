/** Further facts about the parser: the shape of the trees a level's loop
    builds, the cases of the primary parser, and the edges of the statement
    grammar. */
module ParserFacts {
  import opened Wrappers
  import opened Tokens
  import opened Ast
  import opened Parser
  import opened Printer
  import opened ParserRoundTrip

  // ---------------------------------------------------------------------
  // What a level's loop builds

  /** `e` is `left` with zero or more operators of level `l` applied on its
      right, each new node on top of the previous one. */
  predicate LevelChain(e: Expr, left: Expr, l: nat) {
    e == left || (e.Binary? && Prec(e.op) == l && LevelChain(e.left, left, l))
  }

  /** A chain that starts with one more level-`l` node over `left` is a
      chain over `left`. */
  lemma {:induction false} ChainExtends(e: Expr, left: Expr, x: Expr, l: nat)
    requires x.Binary? && x.left == left && Prec(x.op) == l && LevelChain(e, x, l)
    ensures LevelChain(e, left, l)
  {
    if e != x {
      ChainExtends(e.left, left, x, l);
    }
  }

  /** Every node the loop of level `l` adds carries an operator of that
      level, and the loop only ever grows the tree upward from `left`. */
  lemma {:induction false} LoopBuildsLevel(ts: seq<Token>, pos: nat, l: nat, left: Expr, e: Expr, n: nat)
    requires ValidTokens(ts) && pos < |ts| && 1 <= l <= 3 && WellFormed(left)
    requires BinaryLoop(ts, pos, l, left) == Ok(Parsed(e, n))
    ensures LevelChain(e, left, l)
    decreases |ts| - pos
  {
    var m := MatchOperator(ts, pos, l);
    if m.node {
      var op := ts[pos].kind;
      var right := ParseOperand(ts, pos + 1, l);
      assert right.Ok?;
      var x := Binary(left, op, right.value.node);
      assert BinaryLoop(ts, right.value.next, l, x) == Ok(Parsed(e, n));
      LoopBuildsLevel(ts, right.value.next, l, x, e, n);
      ChainExtends(e, left, x, l);
    }
  }

  // ---------------------------------------------------------------------
  // Primary expressions

  /** A number or a name is read as a leaf holding the token's text; a
      parenthesized expression yields the inner tree itself; any other
      token is an error. */
  lemma PrimaryCases(ts: seq<Token>, pos: nat)
    requires ValidTokens(ts) && pos < |ts|
    ensures ts[pos].kind.Number? ==> ParsePrimary(ts, pos) == Ok(Parsed(NumberLit(ts[pos].text), pos + 1))
    ensures ts[pos].kind.Identifier? ==> ParsePrimary(ts, pos) == Ok(Parsed(Ident(ts[pos].text), pos + 1))
    ensures !ts[pos].kind.Number? && !ts[pos].kind.Identifier? && !ts[pos].kind.LParen? ==>
              ParsePrimary(ts, pos) == Err(ExpectedExpression)
  {
  }

  /** Parentheses add no node: the tree inside is returned as it is, and
      the index moves past the closing parenthesis. */
  lemma ParenthesesAddNoNode(ts: seq<Token>, pos: nat, e: Expr, n: nat)
    requires ValidTokens(ts) && pos < |ts| && ts[pos].kind.LParen?
    requires ParsePrimary(ts, pos) == Ok(Parsed(e, n))
    ensures pos + 1 < |ts| && ParseExpression(ts, pos + 1) == Ok(Parsed(e, n - 1))
    ensures ts[n - 1].kind.RParen?
  {
    var inner := ParseExpression(ts, pos + 1);
    assert inner.Ok?;
    var close := Consume(ts, inner.value.next, RParen);
    assert close.Ok?;
  }

  // ---------------------------------------------------------------------
  // Examples of precedence and associativity

  /** `a + b * c`, for any number texts: the product is the right operand
      of the sum. */
  lemma ProductBindsTighter(a: string, b: string, c: string)
    ensures ParseExpression([Tok(Number, a), Tok(Plus, "+"), Tok(Number, b), Tok(Multiply, "*"),
                             Tok(Number, c), Tok(EndOfFile, "")], 0)
            == Ok(Parsed(Binary(NumberLit(a), Plus, Binary(NumberLit(b), Multiply, NumberLit(c))), 5))
  {
    var e := Binary(NumberLit(a), Plus, Binary(NumberLit(b), Multiply, NumberLit(c)));
    PrintedProgramParses(e);
    assert Prec(Multiply) == 3 && Open(3, 3) == [] && Close(3, 3) == [];
    assert Print(e.right, 3) == PrintBinary(NumberLit(b), Multiply, NumberLit(c), 3);
    assert Print(e.right, 3) == [Tok(Number, b), Tok(Multiply, "*"), Tok(Number, c)];
    assert Prec(Plus) == 2 && Open(2, 1) == [] && Close(2, 1) == [];
    assert Print(e, 1) == PrintBinary(NumberLit(a), Plus, e.right, 1);
    assert Print(e, 1) == [Tok(Number, a)] + [Tok(Plus, "+")] + Print(e.right, 3);
    assert Print(e, 1) + [Tok(EndOfFile, "")] == [Tok(Number, a), Tok(Plus, "+"), Tok(Number, b), Tok(Multiply, "*"),
                                                  Tok(Number, c), Tok(EndOfFile, "")];
  }

  /** `a - b - c`, for any number texts: the first difference is the left
      operand of the second. */
  lemma DifferenceGroupsLeft(a: string, b: string, c: string)
    ensures ParseExpression([Tok(Number, a), Tok(Minus, "-"), Tok(Number, b), Tok(Minus, "-"),
                             Tok(Number, c), Tok(EndOfFile, "")], 0)
            == Ok(Parsed(Binary(Binary(NumberLit(a), Minus, NumberLit(b)), Minus, NumberLit(c)), 5))
  {
    var e := Binary(Binary(NumberLit(a), Minus, NumberLit(b)), Minus, NumberLit(c));
    PrintedProgramParses(e);
    assert Prec(Minus) == 2 && Open(2, 2) == [] && Close(2, 2) == [];
    assert Print(e.left, 2) == PrintBinary(NumberLit(a), Minus, NumberLit(b), 2);
    assert Print(e.left, 2) == [Tok(Number, a), Tok(Minus, "-"), Tok(Number, b)];
    assert Open(2, 1) == [] && Close(2, 1) == [];
    assert Print(e, 1) == PrintBinary(e.left, Minus, NumberLit(c), 1);
    assert PrintBinary(e.left, Minus, NumberLit(c), 1) == Open(2, 1) + Print(e.left, 2) + [Tok(Minus, "-")] + Print(NumberLit(c), 3) + Close(2, 1);
    assert Print(e, 1) == Print(e.left, 2) + [Tok(Minus, "-")] + [Tok(Number, c)];
    assert Print(e, 1) == [Tok(Number, a), Tok(Minus, "-"), Tok(Number, b), Tok(Minus, "-"), Tok(Number, c)];
    assert Print(e, 1) + [Tok(EndOfFile, "")] == [Tok(Number, a), Tok(Minus, "-"), Tok(Number, b), Tok(Minus, "-"),
                                                  Tok(Number, c), Tok(EndOfFile, "")];
  }

  // ---------------------------------------------------------------------
  // Statements, blocks and functions

  /** `{` cannot start a statement. */
  lemma BraceIsNotStatement(ts: seq<Token>, pos: nat)
    requires ValidTokens(ts) && pos < |ts| && ts[pos].kind.LBrace?
    ensures ParseStatement(ts, pos) == Err(UnexpectedStatementToken)
  {
  }

  /** A block whose `{` is followed directly by the end of input is an
      empty block, not an error. */
  lemma UnclosedBlock(ts: seq<Token>, pos: nat)
    requires ValidTokens(ts) && pos + 1 < |ts| && ts[pos].kind.LBrace? && ts[pos + 1].kind.EndOfFile?
    ensures ParseBlock(ts, pos) == Ok(Parsed(BlockStmt([]), pos + 1))
  {
    assert BlockLoop(ts, pos + 1, []) == Ok(Parsed([], pos + 1));
  }

  /** The tokens of `int NAME ( ) { }`. */
  function EmptyFunction(name: string): seq<Token> {
    [Tok(Int, "int"), Tok(Identifier, name), Tok(LParen, "("), Tok(RParen, ")"), Tok(LBrace, "{"), Tok(RBrace, "}")]
  }

  /** Whatever follows a function's closing `}` is not looked at. */
  lemma FunctionIgnoresTail(name: string, rest: seq<Token>)
    requires ValidTokens(rest)
    ensures ValidTokens(EmptyFunction(name) + rest)
    ensures ParseFunction(EmptyFunction(name) + rest) == Ok(Parsed(FunctionDecl(name, [], BlockStmt([])), 6))
  {
    var ts := EmptyFunction(name) + rest;
    assert ts[5] == Tok(RBrace, "}");
    assert BlockLoop(ts, 5, []) == Ok(Parsed([], 6));
    assert ParseBlock(ts, 4) == Ok(Parsed(BlockStmt([]), 6));
  }
}
