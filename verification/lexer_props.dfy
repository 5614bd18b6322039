/** Whole-input properties of the lexer: token texts cover the input exactly
    (whitespace aside), the kinds it can produce, the characters it rejects,
    and a few concrete tokenizations. */
module LexerProperties {
  import opened Wrappers
  import opened Tokens
  import opened Lexer

  /** The input with every whitespace character removed. */
  function Strip(s: string): string
    decreases |s|
  {
    if s == [] then []
    else if IsSpace(s[0]) then Strip(s[1..])
    else [s[0]] + Strip(s[1..])
  }

  /** The concatenated texts of a token sequence. */
  function Texts(ts: seq<Token>): string
    decreases |ts|
  {
    if ts == [] then [] else ts[0].text + Texts(ts[1..])
  }

  lemma {:induction false} StripAppend(a: string, b: string)
    ensures Strip(a + b) == Strip(a) + Strip(b)
    decreases |a|
  {
    if a == [] {
      assert a + b == b;
    } else {
      assert (a + b)[0] == a[0];
      assert (a + b)[1..] == a[1..] + b;
      StripAppend(a[1..], b);
    }
  }

  lemma {:induction false} StripAllSpace(s: string)
    requires forall j :: 0 <= j < |s| ==> IsSpace(s[j])
    ensures Strip(s) == []
    decreases |s|
  {
    if s != [] {
      StripAllSpace(s[1..]);
    }
  }

  lemma {:induction false} StripNoSpace(s: string)
    requires forall j :: 0 <= j < |s| ==> !IsSpace(s[j])
    ensures Strip(s) == s
    decreases |s|
  {
    if s != [] {
      StripNoSpace(s[1..]);
      assert s == [s[0]] + s[1..];
    }
  }

  lemma {:induction false} StripKeeps(s: string, j: nat)
    requires j < |s| && !IsSpace(s[j])
    ensures s[j] in Strip(s)
    decreases |s|
  {
    if j > 0 {
      StripKeeps(s[1..], j - 1);
    }
  }

  /** The characters that may appear in some token's text. */
  predicate LexemeChar(ch: char) {
    InRun(IdentRun, ch) || ch == '.' || SingleCharKind(ch).Some?
  }

  lemma LexemeChars(t: Token)
    requires WellFormedLexeme(t)
    ensures forall j :: 0 <= j < |t.text| ==> LexemeChar(t.text[j]) && !IsSpace(t.text[j])
  {
  }

  /** No token kind the lexer produces is a comparison operator. */
  lemma LexemeNotComparison(t: Token)
    requires WellFormedLexeme(t)
    ensures !IsComparison(t.kind)
  {
    if !t.kind.EndOfFile? && !t.kind.Number? && !t.kind.Identifier? && !IsKeyword(t.kind) {
      PunctuatorKind(t.text[0]);
    }
  }

  lemma LexedFromWellFormed(input: string, t: Token, lo: nat)
    requires LexedFrom(input, t, lo)
    ensures WellFormedLexeme(t)
  {
  }

  /** Stripping a suffix that starts with whitespace and then a space-free
      segment keeps exactly that segment in front. */
  lemma StripSegments(s: string, a: nat, b: nat, d: nat)
    requires a <= b <= d <= |s|
    requires forall j :: a <= j < b ==> IsSpace(s[j])
    requires forall j :: b <= j < d ==> !IsSpace(s[j])
    ensures Strip(s[a..]) == s[b..d] + Strip(s[d..])
  {
    assert s[a..] == s[a..b] + s[b..d] + s[d..];
    StripAppend(s[a..b] + s[b..d], s[d..]);
    StripAppend(s[a..b], s[b..d]);
    StripAllSpace(s[a..b]);
    StripNoSpace(s[b..d]);
  }

  /** The next token's text is what stripping the rest of the input puts
      first. */
  lemma NextTokenText(input: string, c: Cursor)
    requires Valid(input, c) && NextToken(input, c).Ok?
    ensures var l := NextToken(input, c).value;
            l.end.pos <= |input| && Strip(input[c.pos..]) == l.token.text + Strip(input[l.end.pos..])
  {
    var l := NextToken(input, c).value;
    NextTokenLexed(input, c);
    var start := SkipWhitespace(input, c).pos;
    var end := l.end.pos;
    var text := l.token.text;
    LexemeChars(l.token);
    assert text == input[start..end];
    forall j | start <= j < end
      ensures !IsSpace(input[j])
    {
      assert input[j] == text[j - start];
    }
    StripSegments(input, c.pos, start, end);
  }

  /** On success, the token texts concatenate to the rest of the input with
      whitespace removed. */
  lemma {:induction false} TokenizeFromTexts(input: string, c: Cursor)
    requires Valid(input, c) && TokenizeFrom(input, c).Ok?
    ensures Texts(TokenizeFrom(input, c).value) == Strip(input[c.pos..])
    decreases |input| - c.pos
  {
    var l := NextToken(input, c).value;
    NextTokenText(input, c);
    if l.token.kind.EndOfFile? {
      NextTokenLexed(input, c);
      assert TokenizeFrom(input, c).value == [l.token];
      assert Texts([l.token]) == l.token.text + Texts([]);
      assert input[l.end.pos..] == [];
    } else {
      var rest := TokenizeFrom(input, l.end).value;
      assert TokenizeFrom(input, c).value == [l.token] + rest;
      assert ([l.token] + rest)[1..] == rest;
      TokenizeFromTexts(input, l.end);
    }
  }

  lemma TokenizeTexts(input: string)
    requires Tokenize(input).Ok?
    ensures Texts(Tokenize(input).value) == Strip(input)
  {
    assert input[..0] == [];
    TokenizeFromTexts(input, Cursor(0, 1, 1));
    assert input[0..] == input;
  }

  lemma {:induction false} TextsChars(ts: seq<Token>)
    requires forall k :: 0 <= k < |ts| ==> WellFormedLexeme(ts[k])
    ensures forall ch :: ch in Texts(ts) ==> LexemeChar(ch)
    decreases |ts|
  {
    if ts != [] {
      LexemeChars(ts[0]);
      TextsChars(ts[1..]);
    }
  }

  /** Every non-whitespace character of a successfully lexed input is one
      that can occur in a token. */
  lemma TokenizeCharsAllowed(input: string)
    requires Tokenize(input).Ok?
    ensures forall j :: 0 <= j < |input| ==> IsSpace(input[j]) || LexemeChar(input[j])
  {
    var ts := Tokenize(input).value;
    forall k | 0 <= k < |ts|
      ensures WellFormedLexeme(ts[k])
    {
      LexedFromWellFormed(input, ts[k], 0);
    }
    TextsChars(ts);
    TokenizeTexts(input);
    forall j | 0 <= j < |input| && !IsSpace(input[j])
      ensures LexemeChar(input[j])
    {
      StripKeeps(input, j);
    }
  }

  /** `<`, `>` and `!` occur in no token, so an input holding one fails. */
  lemma RejectsRelationalCharacters(input: string)
    requires '<' in input || '>' in input || '!' in input
    ensures Tokenize(input).Err?
  {
    var bad: char := if '<' in input then '<' else if '>' in input then '>' else '!';
    assert !IsSpace(bad) && !LexemeChar(bad);
    var j :| 0 <= j < |input| && input[j] == bad;
    if Tokenize(input).Ok? {
      TokenizeCharsAllowed(input);
    }
  }

  /** The lexer never produces a comparison-operator token. */
  lemma TokenizeNoComparisons(input: string)
    requires Tokenize(input).Ok?
    ensures forall k :: 0 <= k < |Tokenize(input).value| ==> !IsComparison(Tokenize(input).value[k].kind)
  {
    var ts := Tokenize(input).value;
    forall k | 0 <= k < |ts|
      ensures !IsComparison(ts[k].kind)
    {
      LexedFromWellFormed(input, ts[k], 0);
      LexemeNotComparison(ts[k]);
    }
  }

  // ---------------------------------------------------------------------
  // Single steps of the lexer, used to evaluate concrete inputs

  lemma ValidStart(input: string)
    ensures Valid(input, Cursor(0, 1, 1))
  {
    assert input[..0] == [];
  }

  lemma NoSkip(input: string, c: Cursor)
    requires Valid(input, c) && (c.pos == |input| || !IsSpace(input[c.pos]))
    ensures SkipWhitespace(input, c) == c
  {
  }

  /** At the end of the input only the sentinel is left. */
  lemma TokenizeAtEnd(input: string, c: Cursor)
    requires Valid(input, c) && c.pos == |input|
    ensures TokenizeFrom(input, c) == Ok([Token(EndOfFile, "", c.line, c.column)])
  {
    NoSkip(input, c);
  }

  /** One token that is not the sentinel, followed by the rest. */
  lemma TokenizeStep(input: string, c: Cursor, t: Token, e: Cursor, rest: seq<Token>)
    requires Valid(input, c) && NextToken(input, c) == Ok(Lexed(t, e)) && !t.kind.EndOfFile?
    requires Valid(input, e) && TokenizeFrom(input, e) == Ok(rest)
    ensures TokenizeFrom(input, c) == Ok([t] + rest)
  {
  }

  /** `input[lo..e]` is a maximal run of `run` characters. */
  predicate RunSpan(input: string, lo: nat, e: nat, run: Run) {
    && lo <= e <= |input|
    && (forall j :: lo <= j < e ==> InRun(run, input[j]))
    && (e == |input| || !InRun(run, input[e]))
  }

  lemma RunSpanUnique(input: string, lo: nat, e1: nat, e2: nat, run: Run)
    requires RunSpan(input, lo, e1, run) && RunSpan(input, lo, e2, run)
    ensures e1 == e2
  {
    if e1 < e2 {
      assert false;
    } else if e2 < e1 {
      assert false;
    }
  }

  lemma ReadRunIsSpan(input: string, c: Cursor, run: Run)
    requires Valid(input, c)
    ensures RunSpan(input, c.pos, ReadRun(input, c, run).end.pos, run)
  {
    var r := ReadRun(input, c, run);
    forall j | c.pos <= j < r.end.pos
      ensures InRun(run, input[j])
    {
      assert input[j] == r.text[j - c.pos];
    }
  }

  lemma ReadRunEnd(input: string, c: Cursor, run: Run, n: nat)
    requires Valid(input, c) && c.pos + n <= |input|
    requires ReadRun(input, c, run).end.pos == c.pos + n
    ensures ReadRun(input, c, run) == Scanned(input[c.pos..c.pos + n], Cursor(c.pos + n, c.line, c.column + n))
  {
  }

  /** A run is read up to the first character outside its class; this
      follows from `ReadRun`'s maximality alone. */
  lemma ReadRunSpan(input: string, c: Cursor, run: Run, n: nat)
    requires Valid(input, c) && RunSpan(input, c.pos, c.pos + n, run)
    ensures ReadRun(input, c, run) == Scanned(input[c.pos..c.pos + n], Cursor(c.pos + n, c.line, c.column + n))
  {
    ReadRunIsSpan(input, c, run);
    RunSpanUnique(input, c.pos, ReadRun(input, c, run).end.pos, c.pos + n, run);
    ReadRunEnd(input, c, run, n);
  }

  lemma NumberStep(input: string, c: Cursor, s: Cursor, n: nat)
    requires Valid(input, c) && SkipWhitespace(input, c) == s
    requires s.pos < |input| && IsDigit(input[s.pos])
    requires RunSpan(input, s.pos, s.pos + n, NumberRun)
    ensures NextToken(input, c) ==
            Ok(Lexed(Token(Number, input[s.pos..s.pos + n], s.line, s.column), Cursor(s.pos + n, s.line, s.column + n)))
  {
    ReadRunSpan(input, s, NumberRun, n);
  }

  lemma IdentifierStep(input: string, c: Cursor, s: Cursor, n: nat)
    requires Valid(input, c) && SkipWhitespace(input, c) == s
    requires s.pos < |input| && IsIdentStart(input[s.pos])
    requires RunSpan(input, s.pos, s.pos + n, IdentRun)
    ensures var w := input[s.pos..s.pos + n];
            NextToken(input, c) ==
            Ok(Lexed(Token(Keywords.Classify(w), w, s.line, s.column), Cursor(s.pos + n, s.line, s.column + n)))
  {
    assert !IsDigit(input[s.pos]);
    IdentifierBranch(input, s);
    ReadRunSpan(input, s, IdentRun, n);
  }

  lemma IdentifierBranch(input: string, s: Cursor)
    requires Valid(input, s) && s.pos < |input| && !IsDigit(input[s.pos]) && IsIdentStart(input[s.pos])
    ensures ScanToken(input, s) == Ok(ReadIdentifier(input, s))
  {
  }

  lemma PunctuatorStep(input: string, c: Cursor, s: Cursor)
    requires Valid(input, c) && SkipWhitespace(input, c) == s
    requires s.pos < |input| && SingleCharKind(input[s.pos]).Some?
    ensures var ch := input[s.pos];
            NextToken(input, c) ==
            Ok(Lexed(Token(SingleCharKind(ch).value, [ch], s.line, s.column), Cursor(s.pos + 1, s.line, s.column + 1)))
  {
    PunctuatorScan(input, s);
  }

  lemma PunctuatorScan(input: string, s: Cursor)
    requires Valid(input, s) && s.pos < |input| && SingleCharKind(input[s.pos]).Some?
    ensures var ch := input[s.pos];
            ScanToken(input, s) ==
            Ok(Lexed(Token(SingleCharKind(ch).value, [ch], s.line, s.column), Cursor(s.pos + 1, s.line, s.column + 1)))
  {
    var ch := input[s.pos];
    PunctuatorClass(ch);
    PunctuatorBranch(input, s);
    assert Advance(input, s) == Cursor(s.pos + 1, s.line, s.column + 1);
  }

  lemma PunctuatorBranch(input: string, s: Cursor)
    requires Valid(input, s) && s.pos < |input| && !IsDigit(input[s.pos]) && !IsIdentStart(input[s.pos])
    ensures var ch := input[s.pos];
            var a := Advance(input, s);
            ScanToken(input, s) ==
              if SingleCharKind(ch).Some? then Ok(Lexed(Token(SingleCharKind(ch).value, [ch], a.line, s.column), a))
              else Err(UnexpectedCharacter(ch))
  {
  }

  lemma PunctuatorClass(ch: char)
    requires SingleCharKind(ch).Some?
    ensures !IsDigit(ch) && !IsIdentStart(ch) && !IsSpace(ch)
  {
    assert ch in "+-*/=(){};" by {
      SingleCharTable();
    }
  }

  // ---------------------------------------------------------------------
  // Concrete tokenizations

  /** `==` is two assignments, not one equality. */
  lemma DoubleEqualsIsTwoAssigns()
    ensures Tokenize("==") ==
            Ok([Token(Assign, "=", 1, 1), Token(Assign, "=", 1, 2), Token(EndOfFile, "", 1, 3)])
  {
    var input := "==";
    var c0, c1, c2 := Cursor(0, 1, 1), Cursor(1, 1, 2), Cursor(2, 1, 3);
    var a1, a2, eof := Token(Assign, "=", 1, 1), Token(Assign, "=", 1, 2), Token(EndOfFile, "", 1, 3);
    ValidStart(input);
    NoSkip(input, c0);
    PunctuatorStep(input, c0, c0);
    NoSkip(input, c1);
    PunctuatorStep(input, c1, c1);
    TokenizeAtEnd(input, c2);
    TokenizeStep(input, c1, a2, c2, [eof]);
    assert [a2] + [eof] == [a2, eof];
    TokenizeStep(input, c0, a1, c1, [a2, eof]);
    assert [a1] + [a2, eof] == [a1, a2, eof];
  }

  /** A number run takes every digit and dot, however many dots. */
  lemma MalformedNumberIsOneToken()
    ensures Tokenize("1.2.3") == Ok([Token(Number, "1.2.3", 1, 1), Token(EndOfFile, "", 1, 6)])
  {
    MalformedNumberSpan();
    WholeInputNumber("1.2.3");
  }

  /** An input that is one maximal number run is one token. */
  lemma WholeInputNumber(input: string)
    requires |input| > 0 && IsDigit(input[0]) && RunSpan(input, 0, |input|, NumberRun)
    ensures Tokenize(input) ==
            Ok([Token(Number, input, 1, 1), Token(EndOfFile, "", 1, 1 + |input|)])
  {
    var c0, e := Cursor(0, 1, 1), Cursor(|input|, 1, 1 + |input|);
    var num, eof := Token(Number, input, 1, 1), Token(EndOfFile, "", 1, 1 + |input|);
    ValidStart(input);
    NoSkip(input, c0);
    NumberStep(input, c0, c0, |input|);
    assert input[0..|input|] == input;
    TokenizeAtEnd(input, e);
    TokenizeStep(input, c0, num, e, [eof]);
    assert [num] + [eof] == [num, eof];
  }

  lemma MalformedNumberSpan()
    ensures RunSpan("1.2.3", 0, 5, NumberRun)
  {
    var input := "1.2.3";
    forall j | 0 <= j < 5
      ensures InRun(NumberRun, input[j])
    {
      if j == 0 {} else if j == 1 {} else if j == 2 {} else if j == 3 {} else {}
    }
  }

  /** Being lexed in order pins each token to its own offset: in `a a`,
      after the first `a`, a second `a` can only be the one at offset 2, at
      column 3, so repeating the first token is not a lexing of the input. */
  lemma SecondTokenPinned(u: Token, v: Token, os: seq<nat>)
    requires LexedWith("a a", [Token(Identifier, "a", 1, 1), u, v], 0, os) && u.text == "a"
    ensures os[1] == 2 && u.line == 1 && u.column == 3
  {
    var input := "a a";
    var t := Token(Identifier, "a", 1, 1);
    var ts := [t, u, v];
    assert LexedAt(input, t, os[0]);
    var second := ts[1..];
    assert LexedWith(input, second, os[0] + 1, os[1..]);
    var o := os[1];
    assert os[1..][0] == o && second[0] == u;
    assert os[0] + 1 <= o && LexedAt(input, u, o);
    assert input[o] == 'a' by {
      assert input[o..o + 1] == "a";
    }
    assert o == 2;
    assert input[..2] == ['a', ' '] && ['a', ' '][..1] == ['a'] && ['a'][..0] == [];
    assert PositionAfter(input[..2]) == Position(1, 3);
  }

  /** A newline moves to the next line and restarts the column at 1. */
  lemma NewlinePositions()
    ensures Tokenize("a\n b") ==
            Ok([Token(Identifier, "a", 1, 1), Token(Identifier, "b", 2, 2), Token(EndOfFile, "", 2, 3)])
  {
    assert "a\n b" == ['a', '\n', ' ', 'b'];
    LineBreakPositions('a', 'b');
  }

  /** Two one-letter names separated by a newline and a space. */
  lemma LineBreakPositions(x: char, y: char)
    requires IsAlpha(x) && IsAlpha(y)
    ensures Tokenize([x, '\n', ' ', y]) ==
            Ok([Token(Identifier, [x], 1, 1), Token(Identifier, [y], 2, 2), Token(EndOfFile, "", 2, 3)])
  {
    var input := [x, '\n', ' ', y];
    var c0, c1, c4 := Cursor(0, 1, 1), Cursor(1, 1, 2), Cursor(4, 2, 3);
    var a, b, eof := Token(Identifier, [x], 1, 1), Token(Identifier, [y], 2, 2), Token(EndOfFile, "", 2, 3);
    LineBreakFirst(x, y);
    LineBreakSecond(x, y);
    TokenizeAtEnd(input, c4);
    TokenizeStep(input, c1, b, c4, [eof]);
    assert [b] + [eof] == [b, eof];
    TokenizeStep(input, c0, a, c1, [b, eof]);
    assert [a] + [b, eof] == [a, b, eof];
  }

  /** No reserved word has a single letter. */
  lemma OneLetterIsIdentifier(x: char)
    ensures Keywords.Classify([x]) == Identifier
  {
    Keywords.ReservedWords();
  }

  lemma LineBreakFirst(x: char, y: char)
    requires IsAlpha(x) && IsAlpha(y)
    ensures Valid([x, '\n', ' ', y], Cursor(0, 1, 1))
    ensures NextToken([x, '\n', ' ', y], Cursor(0, 1, 1)) ==
            Ok(Lexed(Token(Identifier, [x], 1, 1), Cursor(1, 1, 2)))
  {
    var input := [x, '\n', ' ', y];
    ValidStart(input);
    NoSkip(input, Cursor(0, 1, 1));
    IdentifierStep(input, Cursor(0, 1, 1), Cursor(0, 1, 1), 1);
    assert input[0..1] == [x];
    OneLetterIsIdentifier(x);
  }

  lemma LineBreakSecond(x: char, y: char)
    requires IsAlpha(x) && IsAlpha(y)
    ensures Valid([x, '\n', ' ', y], Cursor(1, 1, 2))
    ensures NextToken([x, '\n', ' ', y], Cursor(1, 1, 2)) ==
            Ok(Lexed(Token(Identifier, [y], 2, 2), Cursor(4, 2, 3)))
  {
    var input := [x, '\n', ' ', y];
    var c1, c3 := Cursor(1, 1, 2), Cursor(3, 2, 2);
    LineBreakFirst(x, y);
    assert Advance(input, c1) == Cursor(2, 2, 1);
    assert Advance(input, Cursor(2, 2, 1)) == c3;
    assert SkipWhitespace(input, c1) == c3;
    IdentifierStep(input, c1, c3, 1);
    assert input[3..4] == [y];
    OneLetterIsIdentifier(y);
  }

  /** `>=` is not a lexeme: after a name and a space, the lexer stops at
      `>`, whatever follows it. */
  lemma GreaterEqualIsRejected(x: char, rest: string)
    requires IsAlpha(x)
    ensures Tokenize([x, ' ', '>'] + rest) == Err(UnexpectedCharacter('>'))
  {
    var input := [x, ' ', '>'] + rest;
    var c0, c1, c2 := Cursor(0, 1, 1), Cursor(1, 1, 2), Cursor(2, 1, 3);
    ValidStart(input);
    NoSkip(input, c0);
    IdentifierStep(input, c0, c0, 1);
    assert input[0..1] == [x];
    OneLetterIsIdentifier(x);
    assert Advance(input, c1) == c2;
    NoSkip(input, c2);
    assert SkipWhitespace(input, c1) == c2;
    PunctuatorBranch(input, c2);
    assert NextToken(input, c1) == Err(UnexpectedCharacter('>'));
    assert TokenizeFrom(input, c1) == Err(UnexpectedCharacter('>'));
    assert TokenizeFrom(input, c0) == Err(UnexpectedCharacter('>'));
  }
}
