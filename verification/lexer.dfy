/** The lexer: a character cursor that turns source text into tokens ending
    in one `EndOfFile` token.

    Character classes are the ASCII readings of `isspace`, `isdigit`,
    `isalpha` and `isalnum`. The cursor is a value; every operation that moves
    it returns the moved cursor. */
module Lexer {
  import opened Wrappers
  import opened Tokens
  import Keywords

  /** The only lexical error: a character that can start no token. */
  datatype LexError = UnexpectedCharacter(ch: char)

  // ---------------------------------------------------------------------
  // Character classes

  predicate IsSpace(ch: char) {
    ch == ' ' || ch == '\t' || ch == '\n' || ch == '\U{000B}' || ch == '\U{000C}' || ch == '\r'
  }

  predicate IsDigit(ch: char) {
    '0' <= ch <= '9'
  }

  predicate IsAlpha(ch: char) {
    'a' <= ch <= 'z' || 'A' <= ch <= 'Z'
  }

  predicate IsAlnum(ch: char) {
    IsDigit(ch) || IsAlpha(ch)
  }

  predicate IsIdentStart(ch: char) {
    IsAlpha(ch) || ch == '_'
  }

  /** The two kinds of maximal run the lexer reads. */
  datatype Run = NumberRun | IdentRun

  predicate InRun(run: Run, ch: char) {
    match run
    case NumberRun => IsDigit(ch) || ch == '.'
    case IdentRun => IsAlnum(ch) || ch == '_'
  }

  // ---------------------------------------------------------------------
  // The single-character operator and punctuator table

  const SingleChars: string := "+-*/=(){};"

  predicate IsPunctuator(k: TokenKind) {
    k.Plus? || k.Minus? || k.Multiply? || k.Divide? || k.Assign?
    || k.LParen? || k.RParen? || k.LBrace? || k.RBrace? || k.Semicolon?
  }

  function SingleCharKind(ch: char): Option<TokenKind> {
    match ch
    case '+' => Some(Plus)
    case '-' => Some(Minus)
    case '*' => Some(Multiply)
    case '/' => Some(Divide)
    case '=' => Some(Assign)
    case '(' => Some(LParen)
    case ')' => Some(RParen)
    case '{' => Some(LBrace)
    case '}' => Some(RBrace)
    case ';' => Some(Semicolon)
    case _ => None
  }

  /** The character each punctuator is written with: the table read backwards. */
  function PunctuatorChar(k: TokenKind): char
    requires IsPunctuator(k)
  {
    match k
    case Plus => '+'
    case Minus => '-'
    case Multiply => '*'
    case Divide => '/'
    case Assign => '='
    case LParen => '('
    case RParen => ')'
    case LBrace => '{'
    case RBrace => '}'
    case Semicolon => ';'
  }

  /** Exactly the ten characters of `SingleChars` have an entry, the entries
      are punctuators, and `PunctuatorChar` inverts the table. In particular
      `=` is always `Assign`, and `<`, `>` and `!` have no entry. */
  lemma SingleCharTable()
    ensures forall ch :: SingleCharKind(ch).Some? <==> ch in SingleChars
    ensures forall ch :: SingleCharKind(ch).Some? ==>
              IsPunctuator(SingleCharKind(ch).value) && PunctuatorChar(SingleCharKind(ch).value) == ch
    ensures forall k :: IsPunctuator(k) ==> SingleCharKind(PunctuatorChar(k)) == Some(k)
    ensures SingleCharKind('=') == Some(Assign)
    ensures SingleCharKind('<').None? && SingleCharKind('>').None? && SingleCharKind('!').None?
  {
  }

  // ---------------------------------------------------------------------
  // Source positions

  datatype Position = Position(line: int, column: int)

  /** The position after consuming one character: a newline moves to column
      1 of the next line, anything else moves one column right. */
  function Step(p: Position, ch: char): Position {
    if ch == '\n' then Position(p.line + 1, 1) else Position(p.line, p.column + 1)
  }

  /** The position reached after consuming `s` from line 1, column 1. */
  function PositionAfter(s: string): (p: Position)
    ensures p.line >= 1 && p.column >= 1
    decreases |s|
  {
    if s == [] then Position(1, 1) else Step(PositionAfter(s[..|s| - 1]), s[|s| - 1])
  }

  /** The column is one more than the number of characters since the last
      newline, and the line is one more than the number of newlines. */
  lemma {:induction false} PositionCounts(s: string)
    ensures PositionAfter(s).column == 1 + |s| - LastLineStart(s)
    ensures PositionAfter(s).line == 1 + NewlineCount(s)
    decreases |s|
  {
    if s != [] {
      PositionCounts(s[..|s| - 1]);
    }
  }

  function NewlineCount(s: string): nat
    decreases |s|
  {
    if s == [] then 0 else NewlineCount(s[..|s| - 1]) + (if s[|s| - 1] == '\n' then 1 else 0)
  }

  /** The index just past the last newline of `s` (0 if there is none). */
  function LastLineStart(s: string): (k: nat)
    ensures k <= |s|
    ensures k > 0 ==> s[k - 1] == '\n'
    ensures forall j :: k <= j < |s| ==> s[j] != '\n'
    decreases |s|
  {
    if s == [] then 0
    else if s[|s| - 1] == '\n' then |s|
    else LastLineStart(s[..|s| - 1])
  }

  // ---------------------------------------------------------------------
  // The cursor

  datatype Cursor = Cursor(pos: nat, line: int, column: int)

  /** The cursor is inside the input and its line and column are those of
      the text consumed so far. */
  predicate Valid(input: string, c: Cursor) {
    c.pos <= |input| && Position(c.line, c.column) == PositionAfter(input[..c.pos])
  }

  /** The current character; past the end, the NUL sentinel, which is not
      whitespace and starts no token, so every scanning loop stops there. */
  function Peek(input: string, c: Cursor): (ch: char)
    ensures c.pos < |input| ==> ch == input[c.pos]
    ensures c.pos >= |input| ==> !IsSpace(ch) && !CanStartToken(ch) && !InRun(NumberRun, ch) && !InRun(IdentRun, ch)
  {
    if c.pos >= |input| then '\0' else input[c.pos]
  }

  function Advance(input: string, c: Cursor): (r: Cursor)
    ensures r.pos == c.pos + 1
    ensures Valid(input, c) && c.pos < |input| ==> Valid(input, r)
  {
    assert c.pos < |input| ==> input[..c.pos + 1][..c.pos] == input[..c.pos];
    if Peek(input, c) == '\n' then Cursor(c.pos + 1, c.line + 1, 1)
    else Cursor(c.pos + 1, c.line, c.column + 1)
  }

  function SkipWhitespace(input: string, c: Cursor): (r: Cursor)
    requires Valid(input, c)
    ensures Valid(input, r) && c.pos <= r.pos
    ensures forall i :: c.pos <= i < r.pos ==> IsSpace(input[i])
    ensures r.pos == |input| || !IsSpace(input[r.pos])
    decreases |input| - c.pos
  {
    if IsSpace(Peek(input, c)) then SkipWhitespace(input, Advance(input, c)) else c
  }

  /** The text of a run and the cursor just past it. */
  datatype Scanned = Scanned(text: string, end: Cursor)

  /** A maximal run of `run` characters starting at the cursor. */
  function ReadRun(input: string, c: Cursor, run: Run): (r: Scanned)
    requires Valid(input, c)
    ensures Valid(input, r.end) && c.pos <= r.end.pos
    ensures r.text == input[c.pos..r.end.pos]
    ensures forall j :: 0 <= j < |r.text| ==> InRun(run, r.text[j])
    ensures r.end.pos == |input| || !InRun(run, input[r.end.pos])
    ensures r.end.line == c.line && r.end.column == c.column + |r.text|
    decreases |input| - c.pos
  {
    var ch := Peek(input, c);
    if InRun(run, ch) then
      var rest := ReadRun(input, Advance(input, c), run);
      Scanned([ch] + rest.text, rest.end)
    else
      Scanned([], c)
  }

  /** A token and the cursor just past it. */
  datatype Lexed = Lexed(token: Token, end: Cursor)

  /** A number token: the maximal digit-and-dot run at the cursor, at the
      cursor's position. */
  function ReadNumber(input: string, c: Cursor): (r: Lexed)
    requires Valid(input, c)
    ensures Valid(input, r.end) && r.end.pos == c.pos + |r.token.text|
    ensures r.token.kind == Number && r.token.text == input[c.pos..r.end.pos]
    ensures r.token.line == c.line && r.token.column == c.column
    ensures RunEndsAt(input, r.end.pos, NumberRun)
  {
    var s := ReadRun(input, c, NumberRun);
    Lexed(Token(Number, s.text, s.end.line, c.column), s.end)
  }

  /** A word token: the maximal letter, digit and underscore run at the
      cursor, classified by the keyword table, at the cursor's position. */
  function ReadIdentifier(input: string, c: Cursor): (r: Lexed)
    requires Valid(input, c)
    ensures Valid(input, r.end) && r.end.pos == c.pos + |r.token.text|
    ensures r.token.kind == Keywords.Classify(r.token.text) && r.token.text == input[c.pos..r.end.pos]
    ensures r.token.line == c.line && r.token.column == c.column
    ensures RunEndsAt(input, r.end.pos, IdentRun)
  {
    var s := ReadRun(input, c, IdentRun);
    Lexed(Token(Keywords.Classify(s.text), s.text, s.end.line, c.column), s.end)
  }

  // ---------------------------------------------------------------------
  // What a token looks like, independently of how it is scanned

  /** A character the lexer can start a token with (after whitespace). */
  predicate CanStartToken(ch: char) {
    IsDigit(ch) || IsIdentStart(ch) || SingleCharKind(ch).Some?
  }

  /** The shape of a token's text, determined by its kind. */
  predicate WellFormedLexeme(t: Token) {
    if t.kind.EndOfFile? then
      t.text == []
    else if t.kind.Number? then
      |t.text| > 0 && IsDigit(t.text[0]) && forall j :: 0 <= j < |t.text| ==> InRun(NumberRun, t.text[j])
    else if t.kind.Identifier? || IsKeyword(t.kind) then
      && |t.text| > 0 && IsIdentStart(t.text[0])
      && (forall j :: 0 <= j < |t.text| ==> InRun(IdentRun, t.text[j]))
      && t.kind == Keywords.Classify(t.text)
    else
      |t.text| == 1 && SingleCharKind(t.text[0]) == Some(t.kind)
  }

  predicate RunEndsAt(input: string, j: nat, run: Run)
    requires j <= |input|
  {
    j == |input| || !InRun(run, input[j])
  }

  /** Token `t` is what the lexer produces for the text starting at offset
      `i`: its text is the input there, its position is the position of its
      first character, runs are maximal, and the end marker sits at the end. */
  predicate LexedAt(input: string, t: Token, i: nat) {
    && i + |t.text| <= |input|
    && input[i..i + |t.text|] == t.text
    && Position(t.line, t.column) == PositionAfter(input[..i])
    && WellFormedLexeme(t)
    && (t.kind.EndOfFile? ==> i == |input|)
    && (t.kind.Number? ==> RunEndsAt(input, i + |t.text|, NumberRun))
    && (t.kind.Identifier? || IsKeyword(t.kind) ==> RunEndsAt(input, i + |t.text|, IdentRun))
  }

  // ---------------------------------------------------------------------
  // Scanning

  /** The cursor right after the token that starts at `s`. */
  lemma NumberLexed(input: string, s: Cursor)
    requires Valid(input, s) && s.pos < |input| && IsDigit(input[s.pos])
    ensures var l := ReadNumber(input, s);
            && Valid(input, l.end) && l.end.pos == s.pos + |l.token.text| > s.pos
            && LexedAt(input, l.token, s.pos)
  {
    var r := ReadRun(input, s, NumberRun);
    assert r.text[0] == input[s.pos];
  }

  lemma IdentifierLexed(input: string, s: Cursor)
    requires Valid(input, s) && s.pos < |input| && IsIdentStart(input[s.pos])
    ensures var l := ReadIdentifier(input, s);
            && Valid(input, l.end) && l.end.pos == s.pos + |l.token.text| > s.pos
            && LexedAt(input, l.token, s.pos)
  {
    var r := ReadRun(input, s, IdentRun);
    assert r.text[0] == input[s.pos];
    assert WellFormedLexeme(ReadIdentifier(input, s).token);
  }

  lemma EndLexed(input: string, s: Cursor)
    requires Valid(input, s) && s.pos == |input|
    ensures LexedAt(input, Token(EndOfFile, "", s.line, s.column), s.pos)
  {
    assert input[s.pos..s.pos] == [];
  }

  lemma PunctuatorLexed(input: string, s: Cursor, k: TokenKind)
    requires Valid(input, s) && s.pos < |input| && SingleCharKind(input[s.pos]) == Some(k)
    ensures var a := Advance(input, s);
            && Valid(input, a) && a.pos == s.pos + 1
            && LexedAt(input, Token(k, [input[s.pos]], a.line, s.column), s.pos)
  {
    var ch := input[s.pos];
    assert input[s.pos..s.pos + 1] == [ch];
    assert IsPunctuator(k) by {
      PunctuatorKind(ch);
    }
  }

  lemma PunctuatorKind(ch: char)
    requires SingleCharKind(ch).Some?
    ensures IsPunctuator(SingleCharKind(ch).value)
  {
  }

  /** Skips whitespace, then scans one token. */
  function NextToken(input: string, c: Cursor): (r: Result<Lexed, LexError>)
    requires Valid(input, c)
    ensures r.Ok? ==> Valid(input, r.value.end) && c.pos <= r.value.end.pos
    ensures r.Ok? && !r.value.token.kind.EndOfFile? ==> r.value.end.pos > c.pos
  {
    ScanToken(input, SkipWhitespace(input, c))
  }

  /** The token at a cursor that is not on whitespace: the end marker at
      the end of the input, a number, a word, or a single character. */
  function ScanToken(input: string, s: Cursor): (r: Result<Lexed, LexError>)
    requires Valid(input, s)
    ensures r.Ok? ==> Valid(input, r.value.end) && s.pos <= r.value.end.pos
    ensures r.Ok? && !r.value.token.kind.EndOfFile? ==> r.value.end.pos > s.pos
  {
    if s.pos >= |input| then
      Ok(Lexed(Token(EndOfFile, "", s.line, s.column), s))
    else
      var ch := Peek(input, s);
      if IsDigit(ch) then
        Ok(ReadNumber(input, s))
      else if IsIdentStart(ch) then
        Ok(ReadIdentifier(input, s))
      else
        var a := Advance(input, s);
        var kind := SingleCharKind(ch);
        if kind.Some? then
          Ok(Lexed(Token(kind.value, [ch], a.line, s.column), a))
        else
          Err(UnexpectedCharacter(ch))
  }

  /** A token is the lexeme that starts at the first non-whitespace character
      at or after the cursor, and the cursor moves just past it. */
  lemma NextTokenLexed(input: string, c: Cursor)
    requires Valid(input, c) && NextToken(input, c).Ok?
    ensures var l := NextToken(input, c).value;
            var start := SkipWhitespace(input, c).pos;
            && LexedAt(input, l.token, start)
            && l.end.pos == start + |l.token.text|
  {
    var s := SkipWhitespace(input, c);
    if s.pos >= |input| {
      EndLexed(input, s);
    } else {
      var ch := input[s.pos];
      if IsDigit(ch) {
        NumberLexed(input, s);
      } else if IsIdentStart(ch) {
        IdentifierLexed(input, s);
      } else {
        PunctuatorLexed(input, s, SingleCharKind(ch).value);
      }
    }
  }

  /** The lexer fails exactly at a character that is not whitespace and can
      start no token, and reports that character. */
  lemma NextTokenError(input: string, c: Cursor)
    requires Valid(input, c)
    ensures var start := SkipWhitespace(input, c).pos;
            NextToken(input, c).Err? <==> start < |input| && !CanStartToken(input[start])
    ensures var start := SkipWhitespace(input, c).pos;
            NextToken(input, c).Err? ==>
              && !IsSpace(input[start])
              && NextToken(input, c).error == UnexpectedCharacter(input[start])
  {
  }

  predicate EndsWithSentinel(ts: seq<Token>) {
    && |ts| > 0
    && ts[|ts| - 1].kind.EndOfFile?
    && forall k :: 0 <= k < |ts| - 1 ==> !ts[k].kind.EndOfFile?
  }

  /** Every token of `ts` is lexed at some offset at or after `lo`. */
  predicate AllLexed(input: string, ts: seq<Token>, lo: nat) {
    forall k :: 0 <= k < |ts| ==> LexedFrom(input, ts[k], lo)
  }

  /** Token `t` is lexed at some offset at or after `lo`. */
  predicate LexedFrom(input: string, t: Token, lo: nat) {
    exists i: nat :: lo <= i <= |input| && LexedAt(input, t, i)
  }

  lemma AllLexedCons(input: string, t: Token, i: nat, rest: seq<Token>, lo: nat, lo': nat)
    requires lo <= i <= |input| && LexedAt(input, t, i)
    requires lo <= lo' && AllLexed(input, rest, lo')
    ensures AllLexed(input, [t] + rest, lo)
  {
    var ts := [t] + rest;
    forall k | 0 <= k < |ts|
      ensures LexedFrom(input, ts[k], lo)
    {
      if k == 0 {
        assert LexedAt(input, ts[k], i);
      } else {
        assert ts[k] == rest[k - 1];
        var j :| lo' <= j <= |input| && LexedAt(input, rest[k - 1], j);
        assert lo <= j <= |input| && LexedAt(input, ts[k], j);
      }
    }
    assert AllLexed(input, ts, lo);
  }

  /** Only whitespace in `input[a..b]`. */
  predicate Blank(input: string, a: nat, b: nat) {
    b <= |input| && forall j :: a <= j < b ==> IsSpace(input[j])
  }

  /** Token `k` is lexed at offset `os[k]`, and only whitespace separates
      it from the text before it: from `lo` for the first token, from the
      end of the previous token for each later one. */
  predicate LexedWith(input: string, ts: seq<Token>, lo: nat, os: seq<nat>)
    decreases |ts|
  {
    && |os| == |ts|
    && (ts != [] ==>
          && lo <= os[0] && Blank(input, lo, os[0]) && LexedAt(input, ts[0], os[0])
          && LexedWith(input, ts[1..], os[0] + |ts[0].text|, os[1..]))
  }

  /** The tokens cover `input[lo..]` left to right, with only whitespace
      between them. */
  ghost predicate LexedInOrder(input: string, ts: seq<Token>, lo: nat) {
    exists os: seq<nat> :: LexedWith(input, ts, lo, os)
  }

  lemma InOrderCons(input: string, t: Token, i: nat, rest: seq<Token>, lo: nat)
    requires lo <= i && Blank(input, lo, i) && LexedAt(input, t, i)
    requires LexedInOrder(input, rest, i + |t.text|)
    ensures LexedInOrder(input, [t] + rest, lo)
  {
    var os :| LexedWith(input, rest, i + |t.text|, os);
    var ts, os' := [t] + rest, [i] + os;
    assert ts[1..] == rest && os'[1..] == os;
    assert LexedWith(input, ts, lo, os');
  }

  lemma InOrderEmpty(input: string, lo: nat)
    ensures LexedInOrder(input, [], lo)
  {
    assert LexedWith(input, [], lo, []);
  }

  /** Each token after the first starts past the one before it, since only
      the end marker, which comes last, has empty text; every token starts
      at or after `lo`. */
  lemma {:induction false} OffsetsIncrease(input: string, ts: seq<Token>, lo: nat, os: seq<nat>)
    requires LexedWith(input, ts, lo, os) && EndsWithSentinel(ts)
    ensures forall k :: 0 <= k < |ts| ==> lo <= os[k]
    ensures forall k :: 0 < k < |ts| ==> os[k - 1] < os[k]
    decreases |ts|
  {
    if |ts| > 1 {
      var next := os[0] + |ts[0].text|;
      assert !ts[0].kind.EndOfFile? && WellFormedLexeme(ts[0]);
      assert EndsWithSentinel(ts[1..]) by {
        forall k | 0 <= k < |ts[1..]| - 1
          ensures !ts[1..][k].kind.EndOfFile?
        {
          assert ts[1..][k] == ts[k + 1];
        }
      }
      OffsetsIncrease(input, ts[1..], next, os[1..]);
      forall k | 0 < k < |ts|
        ensures lo <= os[k] && os[k - 1] < os[k]
      {
        assert os[k] == os[1..][k - 1];
        if k > 1 {
          assert os[k - 1] == os[1..][k - 2];
        }
      }
    }
  }

  function TokenizeFrom(input: string, c: Cursor): (r: Result<seq<Token>, LexError>)
    requires Valid(input, c)
    ensures r.Ok? ==> EndsWithSentinel(r.value)
    ensures r.Ok? ==> AllLexed(input, r.value, c.pos)
    ensures r.Ok? ==> LexedInOrder(input, r.value, c.pos)
    decreases |input| - c.pos
  {
    var l :- NextToken(input, c);
    if l.token.kind.EndOfFile? then
      InOrderEmpty(input, l.end.pos);
      TokenLexed(input, c, l, []);
      assert [l.token] + [] == [l.token];
      Ok([l.token])
    else
      var rest :- TokenizeFrom(input, l.end);
      TokenLexed(input, c, l, rest);
      Ok([l.token] + rest)
  }

  /** The token `NextToken` finds, in front of tokens lexed in order after
      it, gives tokens lexed in order from the cursor. */
  lemma TokenLexed(input: string, c: Cursor, l: Lexed, rest: seq<Token>)
    requires Valid(input, c) && NextToken(input, c) == Ok(l)
    requires AllLexed(input, rest, l.end.pos) && LexedInOrder(input, rest, l.end.pos)
    ensures AllLexed(input, [l.token] + rest, c.pos) && LexedInOrder(input, [l.token] + rest, c.pos)
  {
    NextTokenLexed(input, c);
    var start := SkipWhitespace(input, c).pos;
    assert Blank(input, c.pos, start);
    AllLexedCons(input, l.token, start, rest, c.pos, l.end.pos);
    InOrderCons(input, l.token, start, rest, c.pos);
  }

  lemma LexedPositive(input: string, ts: seq<Token>, lo: nat)
    requires AllLexed(input, ts, lo)
    ensures forall k :: 0 <= k < |ts| ==> ts[k].line >= 1 && ts[k].column >= 1
  {
    forall k | 0 <= k < |ts|
      ensures ts[k].line >= 1 && ts[k].column >= 1
    {
      assert LexedFrom(input, ts[k], lo);
      var i :| lo <= i <= |input| && LexedAt(input, ts[k], i);
    }
  }

  lemma LexedSentinel(input: string, ts: seq<Token>)
    requires AllLexed(input, ts, 0) && EndsWithSentinel(ts)
    ensures var p := PositionAfter(input);
            ts[|ts| - 1] == Token(EndOfFile, "", p.line, p.column)
  {
    var last := ts[|ts| - 1];
    var i :| 0 <= i <= |input| && LexedAt(input, last, i);
    assert input[..i] == input;
  }

  /** Tokenize the whole input from line 1, column 1. */
  function Tokenize(input: string): (r: Result<seq<Token>, LexError>)
    ensures r.Ok? ==> EndsWithSentinel(r.value)
    ensures r.Ok? ==>
              var p := PositionAfter(input);
              r.value[|r.value| - 1] == Token(EndOfFile, "", p.line, p.column)
    ensures r.Ok? ==> forall k :: 0 <= k < |r.value| ==> r.value[k].line >= 1 && r.value[k].column >= 1
    ensures r.Ok? ==> AllLexed(input, r.value, 0)
    ensures r.Ok? ==> LexedInOrder(input, r.value, 0)
  {
    assert input[..0] == [];
    var r := TokenizeFrom(input, Cursor(0, 1, 1));
    if r.Ok? then
      LexedPositive(input, r.value, 0);
      LexedSentinel(input, r.value);
      r
    else
      r
  }
}
