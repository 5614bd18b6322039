/** The printer the round trip of the expression parser is stated with,
    and where its tokens stand in a token sequence.

    The printer puts parentheses around a node exactly when its operator
    binds more loosely than its context demands; a right operand demands
    one level more than its parent, which makes every level
    left-associative. */
module Printer {
  import opened Tokens
  import opened Ast
  import opened Parser

  /** A token at a fixed position; the parser reads positions only to
      report errors. */
  function Tok(k: TokenKind, text: string): Token {
    Token(k, text, 1, 1)
  }

  function OperatorText(k: TokenKind): string {
    match k
    case Plus => "+"
    case Minus => "-"
    case Multiply => "*"
    case Divide => "/"
    case Greater => ">"
    case GreaterEqual => ">="
    case Less => "<"
    case LessEqual => "<="
    case Equal => "=="
    case NotEqual => "!="
    case _ => ""
  }

  /** The parentheses a node of strength `p` gets in context `ctx`. */
  function Open(p: nat, ctx: nat): seq<Token> {
    if p < ctx then [Tok(LParen, "(")] else []
  }

  function Close(p: nat, ctx: nat): seq<Token> {
    if p < ctx then [Tok(RParen, ")")] else []
  }

  /** The tokens of `e` in a context that binds at strength `ctx`: 1 accepts
      anything, 4 accepts only a primary expression. */
  function Print(e: Expr, ctx: nat): seq<Token>
    decreases e, 1
  {
    match e
    case NumberLit(t) => [Tok(Number, t)]
    case Ident(n) => [Tok(Identifier, n)]
    case Binary(l, op, r) => PrintBinary(l, op, r, ctx)
  }

  /** A binary node: its left operand at its own strength, the operator,
      and its right operand one level tighter, parenthesized as needed. */
  function PrintBinary(l: Expr, op: TokenKind, r: Expr, ctx: nat): seq<Token>
    decreases Binary(l, op, r), 0
  {
    var p := Prec(op);
    Open(p, ctx) + Print(l, p) + [Tok(op, OperatorText(op))] + Print(r, p + 1) + Close(p, ctx)
  }

  /** The number of tokens `Print(e, ctx)` has. */
  function Len(e: Expr, ctx: nat): nat {
    match e
    case Binary(l, op, r) =>
      var p := Prec(op);
      var n := Len(l, p) + 1 + Len(r, p + 1);
      if p < ctx then n + 2 else n
    case _ => 1
  }

  /** `e`, printed in context `ctx`, occupies `ts[q..q + Len(e, ctx)]`.
      Tokens are compared by kind and text only, so the positions the lexer
      attached to them may be anything. */
  predicate Placed(ts: seq<Token>, q: nat, e: Expr, ctx: nat)
    decreases e, 1
  {
    match e
    case NumberLit(t) => q < |ts| && ts[q].kind == Number && ts[q].text == t
    case Ident(n) => q < |ts| && ts[q].kind == Identifier && ts[q].text == n
    case Binary(l, op, r) => PlacedNode(ts, q, l, op, r, ctx)
  }

  /** A binary node: its opening parenthesis if it needs one, its left
      operand, its operator, its right operand, and the closing
      parenthesis. */
  predicate PlacedNode(ts: seq<Token>, q: nat, l: Expr, op: TokenKind, r: Expr, ctx: nat)
    decreases Binary(l, op, r), 0
  {
    var p := Prec(op);
    var s := if p < ctx then q + 1 else q;
    var m := s + Len(l, p);
    && (p < ctx ==> q < |ts| && ts[q].kind == LParen
                    && m + 1 + Len(r, p + 1) < |ts| && ts[m + 1 + Len(r, p + 1)].kind == RParen)
    && Placed(ts, s, l, p)
    && m < |ts| && ts[m].kind == op
    && Placed(ts, m + 1, r, p + 1)
  }

  /** A token that ends an expression of level `l`: it is not an operator
      of that level or a tighter one. */
  predicate StopsAt(k: TokenKind, l: nat) {
    !(IsBinaryOperator(k) && Prec(k) >= l)
  }

  /** The leftmost operand of the chain of level-`l` operators at the top
      of `e`. */
  function Base(e: Expr, l: nat): (b: Expr)
    ensures Size(b) <= Size(e)
    ensures e.Binary? && Prec(e.op) == l ==> Size(b) < Size(e)
    ensures !(b.Binary? && Prec(b.op) == l)
    ensures WellFormed(e) ==> WellFormed(b)
  {
    if e.Binary? && Prec(e.op) == l then Base(e.left, l) else e
  }

  // ---------------------------------------------------------------------
  // The printed tokens

  /** Two tokens of one kind and one text, wherever each stands. */
  predicate Like(a: Token, b: Token) {
    a.kind == b.kind && a.text == b.text
  }

  /** The tokens `ts[q..]` start with `w`, by kind and text; their lines
      and columns may be anything. */
  predicate At(ts: seq<Token>, q: nat, w: seq<Token>) {
    q + |w| <= |ts| && forall i {:trigger w[i]} :: 0 <= i < |w| ==> ts[q + i].kind == w[i].kind && ts[q + i].text == w[i].text
  }

  /** Where the pieces of `o + a + [t] + b + c` stand, given the
      positions `s` of `a`, `m` of `t` and `e` of `c`. */
  lemma AtPieces(ts: seq<Token>, q: nat, o: seq<Token>, a: seq<Token>, t: Token, b: seq<Token>, c: seq<Token>,
                 s: nat, m: nat, e: nat)
    requires At(ts, q, o + a + [t] + b + c) == true
    requires s == q + |o| && m == s + |a| && e == m + 1 + |b|
    ensures At(ts, s, a) && m < |ts| && Like(ts[m], t) && At(ts, m + 1, b)
    ensures |o| == 1 ==> Like(ts[q], o[0])
    ensures |c| == 1 ==> e < |ts| && Like(ts[e], c[0])
  {
    var w := o + a + [t] + b + c;
    forall i | 0 <= i < |a| ensures Like(ts[s + i], a[i]) {
      assert w[|o| + i] == a[i];
    }
    forall i | 0 <= i < |b| ensures Like(ts[m + 1 + i], b[i]) {
      assert w[|o| + |a| + 1 + i] == b[i];
    }
    assert w[|o| + |a|] == t;
    if |o| == 1 {
      assert w[0] == o[0];
    }
    if |c| == 1 {
      assert w[|o| + |a| + 1 + |b|] == c[0];
    }
  }

  /** `Len` counts the printer's tokens. */
  lemma {:induction false} PrintLength(e: Expr, ctx: nat)
    ensures |Print(e, ctx)| == Len(e, ctx)
    decreases e
  {
    if e.Binary? {
      var p := Prec(e.op);
      PrintLength(e.left, p);
      PrintLength(e.right, p + 1);
    }
  }

  /** The printer's tokens, wherever they stand, are placed as `Placed`
      describes. */
  lemma {:induction false} PrintIsPlaced(ts: seq<Token>, q: nat, e: Expr, ctx: nat)
    requires At(ts, q, Print(e, ctx))
    ensures Placed(ts, q, e, ctx)
    decreases e, 1
  {
    match e
    case NumberLit(t) =>
      assert Print(e, ctx)[0] == Tok(Number, t);
    case Ident(n) =>
      assert Print(e, ctx)[0] == Tok(Identifier, n);
    case Binary(l, op, r) =>
      PrintBinaryIsPlaced(ts, q, l, op, r, ctx);
  }

  lemma {:induction false} PrintBinaryIsPlaced(ts: seq<Token>, q: nat, l: Expr, op: TokenKind, r: Expr, ctx: nat)
    requires At(ts, q, PrintBinary(l, op, r, ctx)) == true
    ensures PlacedNode(ts, q, l, op, r, ctx)
    decreases Binary(l, op, r), 0
  {
    var p := Prec(op);
    var s := if p < ctx then q + 1 else q;
    var m := s + Len(l, p);
    var n := m + 1;
    PrintBinaryAt(ts, q, l, op, r, ctx, s, m);
    PrintIsPlaced(ts, s, l, p);
    PrintIsPlaced(ts, n, r, p + 1);
    PlacedFromPieces(ts, q, l, op, r, ctx, s, m);
  }

  /** Where the pieces of a printed binary node stand. */
  lemma PrintBinaryAt(ts: seq<Token>, q: nat, l: Expr, op: TokenKind, r: Expr, ctx: nat, s: nat, m: nat)
    requires At(ts, q, PrintBinary(l, op, r, ctx)) == true
    requires s == (if Prec(op) < ctx then q + 1 else q) && m == s + Len(l, Prec(op))
    ensures At(ts, s, Print(l, Prec(op))) && m < |ts| && ts[m].kind == op && At(ts, m + 1, Print(r, Prec(op) + 1))
    ensures Prec(op) < ctx ==> && q < |ts| && ts[q].kind == LParen && m + 1 + Len(r, Prec(op) + 1) < |ts|
                               && ts[m + 1 + Len(r, Prec(op) + 1)].kind == RParen
  {
    var p := Prec(op);
    var o, pl, t, pr, c := Open(p, ctx), Print(l, p), Tok(op, OperatorText(op)), Print(r, p + 1), Close(p, ctx);
    var e := m + 1 + Len(r, p + 1);
    PrintLength(l, p);
    PrintLength(r, p + 1);
    assert PrintBinary(l, op, r, ctx) == o + pl + [t] + pr + c;
    AtPieces(ts, q, o, pl, t, pr, c, s, m, e);
  }

  // Preconditions below write `Placed(..) == true` and `Fits(..) == true`
  // so that the verifier keeps the predicate as one fact at each call
  // instead of unfolding it there; it means the same as the bare predicate.

  /** `PlacedNode`, from its pieces at given positions. */
  lemma PlacedFromPieces(ts: seq<Token>, q: nat, l: Expr, op: TokenKind, r: Expr, ctx: nat, s: nat, m: nat)
    requires s == (if Prec(op) < ctx then q + 1 else q) && m == s + Len(l, Prec(op))
    requires Prec(op) < ctx ==> && q < |ts| && ts[q].kind == LParen && m + 1 + Len(r, Prec(op) + 1) < |ts|
                                && ts[m + 1 + Len(r, Prec(op) + 1)].kind == RParen
    requires Placed(ts, s, l, Prec(op)) == true && m < |ts| && ts[m].kind == op
    requires Placed(ts, m + 1, r, Prec(op) + 1) == true
    ensures PlacedNode(ts, q, l, op, r, ctx) == true
  {
  }

  // ---------------------------------------------------------------------
  // Facts about placed trees

  /** A tree placed in a context on the same side of its own strength is
      placed in the other context too, with the same length. */
  lemma PlacedSameSide(ts: seq<Token>, q: nat, e: Expr, c1: nat, c2: nat)
    requires !e.Binary? || (c1 <= Prec(e.op) <==> c2 <= Prec(e.op))
    requires Placed(ts, q, e, c1) == true
    ensures Placed(ts, q, e, c2) && Len(e, c1) == Len(e, c2)
  {
  }

  /** A parenthesized tree: the parentheses, and the tree placed inside. */
  lemma PlacedParen(ts: seq<Token>, q: nat, e: Expr, ctx: nat)
    requires e.Binary? && 1 <= Prec(e.op) < ctx && Placed(ts, q, e, ctx) == true
    ensures q < |ts| && ts[q].kind == LParen && Placed(ts, q + 1, e, 1)
    ensures Len(e, ctx) == Len(e, 1) + 2
    ensures q + 1 + Len(e, 1) < |ts| && ts[q + 1 + Len(e, 1)].kind == RParen
  {
  }

  /** The leftmost operand of a chain is placed first, and the chain's
      first operator follows it. */
  lemma {:induction false} BasePrefix(ts: seq<Token>, q: nat, e: Expr, l: nat)
    requires e.Binary? && Prec(e.op) == l && Placed(ts, q, e, l) == true
    ensures var n := q + Len(Base(e, l), l);
            && Placed(ts, q, Base(e, l), l) && n < q + Len(e, l)
            && n < |ts| && Prec(ts[n].kind) == l
    decreases e
  {
    if e.left.Binary? && Prec(e.left.op) == l {
      BasePrefix(ts, q, e.left, l);
    } else {
      assert Base(e, l) == e.left;
    }
  }

  /** A placed tree, its end in the token sequence, and a next token that
      ends level `l`. */
  predicate Fits(ts: seq<Token>, q: nat, e: Expr, ctx: nat, l: nat) {
    ValidTokens(ts) && WellFormed(e) && Placed(ts, q, e, ctx)
    && q + Len(e, ctx) < |ts| && StopsAt(ts[q + Len(e, ctx)].kind, l)
  }

  /** The pieces of a chain node: its left side, which may continue the
      chain, its operator, and its right operand. */
  lemma ChainSplit(ts: seq<Token>, q: nat, e: Expr, l: nat)
    requires 1 <= l <= 3 && e.Binary? && Prec(e.op) == l && Fits(ts, q, e, l, l + 1) == true
    ensures var pa := q + Len(e.left, l);
            && pa + 1 < |ts| && ts[pa].kind == e.op
            && Fits(ts, pa + 1, e.right, l + 1, l + 1)
            && q + Len(e, l) == pa + 1 + Len(e.right, l + 1)
            && WellFormed(e.left)
            && (e.left.Binary? && Prec(e.left.op) == l ==> Fits(ts, q, e.left, l, l + 1))
  {
    assert PlacedNode(ts, q, e.left, e.op, e.right, l);
  }
}
