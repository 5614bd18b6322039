/** The lexer's reserved-word table. */
module Keywords {
  import opened Tokens

  /** The table: exactly six reserved words. */
  const Reserved: map<string, TokenKind> :=
    map["int" := Int, "float" := Float, "if" := If,
        "else" := Else, "while" := While, "return" := Return]

  /** The word each keyword kind is spelled with: the table read backwards. */
  function Spelling(k: TokenKind): string
    requires IsKeyword(k)
  {
    match k
    case Int => "int"
    case Float => "float"
    case If => "if"
    case Else => "else"
    case While => "while"
    case Return => "return"
  }

  /** How an identifier-like run is classified: by exact lookup in the table. */
  function Classify(word: string): (k: TokenKind)
    ensures k.Identifier? <==> word !in Reserved
    ensures !k.Identifier? ==> IsKeyword(k) && Spelling(k) == word
  {
    if word in Reserved then Reserved[word] else Identifier
  }

  lemma ReservedWords()
    ensures Reserved.Keys == {"int", "float", "if", "else", "while", "return"}
    ensures |Reserved| == 6
  {
  }

  /** The table and `Spelling` are inverse to each other, so the table is a
      bijection between the six words and the six keyword kinds. */
  lemma ReservedRoundTrip()
    ensures forall w :: w in Reserved ==> IsKeyword(Reserved[w]) && Spelling(Reserved[w]) == w
    ensures forall k :: IsKeyword(k) ==> Spelling(k) in Reserved && Reserved[Spelling(k)] == k
  {
  }

  lemma ReservedInjective()
    ensures forall w1, w2 :: w1 in Reserved && w2 in Reserved && Reserved[w1] == Reserved[w2] ==> w1 == w2
  {
    ReservedRoundTrip();
  }

  /** Lookup is exact and case-sensitive; `float` and `while` stay reserved
      although no grammar rule consumes them. */
  lemma ClassifyExamples()
    ensures Classify("Int").Identifier? && Classify("iff").Identifier? && Classify("RETURN").Identifier?
    ensures Classify("float") == Float && Classify("while") == While
  {
  }
}
