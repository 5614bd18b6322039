/** Precedence and associativity of the expression parser, stated as a
    round trip: printing a tree with the fewest parentheses its shape needs
    and parsing the tokens back yields the same tree. That says at once
    that `*` and `/` bind tighter than `+` and `-`, which bind tighter than
    the comparisons, and that each level groups to the left. */
module ParserRoundTrip {
  import opened Wrappers
  import opened Tokens
  import opened Ast
  import opened Parser
  import opened Printer

  // ---------------------------------------------------------------------
  // Single steps of the parser

  lemma ParseBinaryStep(ts: seq<Token>, q: nat, l: nat, x: Expr, n: nat)
    requires ValidTokens(ts) && q < |ts| && 1 <= l <= 3
    requires ParseOperand(ts, q, l) == Ok(Parsed(x, n))
    ensures n < |ts| && WellFormed(x)
    ensures ParseBinary(ts, q, l) == BinaryLoop(ts, n, l, x)
  {
  }

  /** One turn of a level's loop. */
  lemma LoopStep(ts: seq<Token>, p: nat, l: nat, left: Expr, op: TokenKind, right: Expr, n: nat)
    requires ValidTokens(ts) && p + 1 < |ts| && 1 <= l <= 3 && WellFormed(left)
    requires ts[p].kind == op && Prec(op) == l
    requires ParseOperand(ts, p + 1, l) == Ok(Parsed(right, n))
    ensures n < |ts| && WellFormed(Binary(left, op, right))
    ensures BinaryLoop(ts, p, l, left) == BinaryLoop(ts, n, l, Binary(left, op, right))
  {
    var m := MatchOperator(ts, p, l);
    assert m.node && m.next == p + 1;
  }

  /** A level's loop stops at once before a token that ends the level. */
  lemma LoopStops(ts: seq<Token>, p: nat, l: nat, left: Expr)
    requires ValidTokens(ts) && p < |ts| && 1 <= l <= 3 && WellFormed(left)
    requires StopsAt(ts[p].kind, l)
    ensures BinaryLoop(ts, p, l, left) == Ok(Parsed(left, p))
  {
  }

  /** A parenthesis, an expression and its closing parenthesis. */
  lemma ParenStep(ts: seq<Token>, q: nat, e: Expr, n: nat)
    requires ValidTokens(ts) && q + 1 < |ts| && ts[q].kind == LParen
    requires ParseExpression(ts, q + 1) == Ok(Parsed(e, n))
    requires n < |ts| && ts[n].kind == RParen
    ensures ParsePrimary(ts, q) == Ok(Parsed(e, n + 1))
  {
  }

  /** A primary expression followed by a token that ends level `l` is
      what level `l` parses too. */
  lemma {:induction false} Lift(ts: seq<Token>, q: nat, l: nat, e: Expr, n: nat)
    requires ValidTokens(ts) && q < |ts| && 1 <= l <= 3 && n < |ts|
    requires ParsePrimary(ts, q) == Ok(Parsed(e, n)) && StopsAt(ts[n].kind, l)
    ensures ParseBinary(ts, q, l) == Ok(Parsed(e, n))
    decreases 3 - l
  {
    if l < 3 {
      Lift(ts, q, l + 1, e, n);
    }
    LoopStops(ts, n, l, e);
  }

  // ---------------------------------------------------------------------
  // The round trip
  //
  // `Fits(..) == true` in a precondition is `Fits(..)`, written so that the
  // verifier does not unfold the predicate at every call of these lemmas.

  /** The second component of the termination measure of the mutually
      recursive round-trip lemmas, all of which first decrease `Size(e)`.
      A tree printed at a level below its own is parsed by descending one
      level, and one printed above it by the primary parser. */
  function Rank(e: Expr, l: nat): nat {
    if !e.Binary? || Prec(e.op) < l then 12 else 2 * (4 - l)
  }

  lemma OperandStep(ts: seq<Token>, q: nat, l: nat)
    requires ValidTokens(ts) && q < |ts| && 1 <= l <= 3
    ensures ParseOperand(ts, q, l) == if l == 3 then ParsePrimary(ts, q) else ParseBinary(ts, q, l + 1)
  {
  }

  lemma PrimaryRoundTrip(ts: seq<Token>, q: nat, e: Expr)
    requires Fits(ts, q, e, 4, 4) == true
    ensures ParsePrimary(ts, q) == Ok(Parsed(e, q + Len(e, 4)))
    decreases Size(e), 7
  {
    if e.Binary? {
      var inner, close := q + 1, q + 1 + Len(e, 1);
      PlacedParen(ts, q, e, 4);
      RoundTrip(ts, inner, e, 1);
      ParenStep(ts, q, e, close);
    }
  }

  lemma OperandRoundTrip(ts: seq<Token>, q: nat, e: Expr, l: nat)
    requires 1 <= l <= 3 && Fits(ts, q, e, l + 1, l + 1) == true
    ensures ParseOperand(ts, q, l) == Ok(Parsed(e, q + Len(e, l + 1)))
    decreases Size(e), 13
  {
    var m := l + 1;
    OperandStep(ts, q, l);
    if l == 3 {
      PrimaryRoundTrip(ts, q, e);
    } else {
      RoundTrip(ts, q, e, m);
    }
  }

  /** Level `l` parses a placed tree back, provided the next token ends
      the level. */
  lemma RoundTrip(ts: seq<Token>, q: nat, e: Expr, l: nat)
    requires 1 <= l <= 3 && Fits(ts, q, e, l, l) == true
    ensures ParseBinary(ts, q, l) == Ok(Parsed(e, q + Len(e, l)))
    decreases Size(e), Rank(e, l)
  {
    if !e.Binary? || Prec(e.op) < l {
      LooseRoundTrip(ts, q, e, l);
    } else if Prec(e.op) > l {
      TightRoundTrip(ts, q, e, l);
    } else {
      LevelRoundTrip(ts, q, e, l);
    }
  }

  /** A tree that is a primary expression at level `l`. */
  lemma LooseRoundTrip(ts: seq<Token>, q: nat, e: Expr, l: nat)
    requires 1 <= l <= 3 && Fits(ts, q, e, l, l) == true && (!e.Binary? || Prec(e.op) < l)
    ensures ParseBinary(ts, q, l) == Ok(Parsed(e, q + Len(e, l)))
    decreases Size(e), 11
  {
    var end := q + Len(e, l);
    assert Len(e, 4) == Len(e, l);
    PlacedSameSide(ts, q, e, l, 4);
    PrimaryRoundTrip(ts, q, e);
    Lift(ts, q, l, e, end);
  }

  /** A tree whose operator binds tighter than level `l`. */
  lemma TightRoundTrip(ts: seq<Token>, q: nat, e: Expr, l: nat)
    requires 1 <= l <= 3 && Fits(ts, q, e, l, l) == true && e.Binary? && Prec(e.op) > l
    ensures ParseBinary(ts, q, l) == Ok(Parsed(e, q + Len(e, l)))
    decreases Size(e), 2 * (4 - l) - 1
  {
    var m, end := l + 1, q + Len(e, l);
    PlacedSameSide(ts, q, e, l, m);
    RoundTrip(ts, q, e, m);
    OperandStep(ts, q, l);
    ParseBinaryStep(ts, q, l, e, end);
    LoopStops(ts, end, l, e);
  }

  /** A tree whose operator belongs to level `l`: a chain of them. */
  lemma LevelRoundTrip(ts: seq<Token>, q: nat, e: Expr, l: nat)
    requires 1 <= l <= 3 && Fits(ts, q, e, l, l) == true && e.Binary? && Prec(e.op) == l
    ensures ParseBinary(ts, q, l) == Ok(Parsed(e, q + Len(e, l)))
    decreases Size(e), 1
  {
    var end := q + Len(e, l);
    ChainStart(ts, q, e, l);
    ChainRoundTrip(ts, q, e, l);
    LoopStops(ts, end, l, e);
  }

  /** An operand parsed at the start of a level, which then loops. */
  lemma BinaryStart(ts: seq<Token>, q: nat, x: Expr, l: nat)
    requires 1 <= l <= 3 && Fits(ts, q, x, l + 1, l + 1) == true
    ensures ParseBinary(ts, q, l) == BinaryLoop(ts, q + Len(x, l + 1), l, x)
    decreases Size(x), 14
  {
    var n := q + Len(x, l + 1);
    OperandRoundTrip(ts, q, x, l);
    ParseBinaryStep(ts, q, l, x, n);
  }

  /** One turn of a level's loop over a printed operator and operand. */
  lemma ChainTurn(ts: seq<Token>, pa: nat, a: Expr, op: TokenKind, b: Expr, end: nat, l: nat)
    requires 1 <= l <= 3 && WellFormed(a) && pa + 1 < |ts| && ts[pa].kind == op && Prec(op) == l
    requires Fits(ts, pa + 1, b, l + 1, l + 1) == true && end == pa + 1 + Len(b, l + 1)
    ensures end < |ts| && WellFormed(Binary(a, op, b))
    ensures BinaryLoop(ts, pa, l, a) == BinaryLoop(ts, end, l, Binary(a, op, b))
    decreases Size(b), 14
  {
    var pb := pa + 1;
    OperandRoundTrip(ts, pb, b, l);
    LoopStep(ts, pa, l, a, op, b, end);
  }

  /** A chain's leftmost operand is what the level's operand parser reads. */
  lemma ChainStart(ts: seq<Token>, q: nat, e: Expr, l: nat)
    requires 1 <= l <= 3 && e.Binary? && Prec(e.op) == l && Fits(ts, q, e, l, l) == true
    ensures var x0 := Base(e, l);
            && q + Len(x0, l) < |ts| && WellFormed(x0)
            && ParseBinary(ts, q, l) == BinaryLoop(ts, q + Len(x0, l), l, x0)
    decreases Size(e), 0
  {
    var x0, m := Base(e, l), l + 1;
    BasePrefix(ts, q, e, l);
    PlacedSameSide(ts, q, x0, l, m);
    BinaryStart(ts, q, x0, l);
  }

  /** Run from just after the chain's leftmost operand, the loop of level
      `l` rebuilds the chain left to right. */
  lemma ChainRoundTrip(ts: seq<Token>, q: nat, e: Expr, l: nat)
    requires 1 <= l <= 3 && e.Binary? && Prec(e.op) == l && Fits(ts, q, e, l, l + 1) == true
    ensures q + Len(Base(e, l), l) < |ts| && WellFormed(Base(e, l))
    ensures var x0 := Base(e, l);
            BinaryLoop(ts, q + Len(x0, l), l, x0) == BinaryLoop(ts, q + Len(e, l), l, e)
    decreases Size(e), 0
  {
    var a, op, b := e.left, e.op, e.right;
    var pa, end := q + Len(a, l), q + Len(e, l);
    ChainSplit(ts, q, e, l);
    ChainTurn(ts, pa, a, op, b, end, l);
    if a.Binary? && Prec(a.op) == l {
      ChainRoundTrip(ts, q, a, l);
      assert Base(e, l) == Base(a, l);
    } else {
      assert Base(e, l) == a;
    }
  }


  // ---------------------------------------------------------------------
  // Printing, then parsing

  /** The tokens of `w` sit at the front of `w + rest`. */
  lemma AtFront(w: seq<Token>, rest: seq<Token>)
    ensures At(w + rest, 0, w)
  {
    forall i | 0 <= i < |w|
      ensures (w + rest)[0 + i] == w[i]
    {
    }
  }

  /** Wherever a printed tree occurs, followed by a token that cannot
      continue an expression, the expression parser reads that tree back
      and stops just after it. */
  lemma PrintThenParse(ts: seq<Token>, q: nat, e: Expr)
    requires ValidTokens(ts) && WellFormed(e) && At(ts, q, Print(e, 1))
    requires q + |Print(e, 1)| < |ts| && StopsAt(ts[q + |Print(e, 1)|].kind, 1)
    ensures ParseExpression(ts, q) == Ok(Parsed(e, q + |Print(e, 1)|))
  {
    PrintLength(e, 1);
    PrintIsPlaced(ts, q, e, 1);
    assert Fits(ts, q, e, 1, 1);
    RoundTrip(ts, q, e, 1);
  }

  /** The printed tokens of a tree, closed by the sentinel, parse back to
      the tree and consume everything before the sentinel. */
  lemma PrintedProgramParses(e: Expr)
    requires WellFormed(e)
    ensures var w := Print(e, 1);
            ParseExpression(w + [Tok(EndOfFile, "")], 0) == Ok(Parsed(e, |w|))
  {
    var w := Print(e, 1);
    var ts := w + [Tok(EndOfFile, "")];
    AtFront(w, [Tok(EndOfFile, "")]);
    assert ts[|w|] == Tok(EndOfFile, "");
    PrintThenParse(ts, 0, e);
  }

  /** Two well-formed trees with the same printed form are the same tree. */
  lemma PrintInjective(a: Expr, b: Expr)
    requires WellFormed(a) && WellFormed(b) && Print(a, 1) == Print(b, 1)
    ensures a == b
  {
    PrintedProgramParses(a);
    PrintedProgramParses(b);
  }
}
