/** Tokens of the C-like source language.

    `TokenKind` lists every kind the lexer's enumeration declares, plus
    `GreaterEqual` and `LessEqual`, which the parser tests for although the
    lexer's enumeration does not declare them. */
module Tokens {

  datatype TokenKind =
    // keywords
    | Int | Float | If | Else | While | Return
    // operators
    | Plus | Minus | Multiply | Divide | Assign
    | Equal | NotEqual | Less | Greater | GreaterEqual | LessEqual
    // other
    | Identifier | Number
    | LParen | RParen | LBrace | RBrace | Semicolon
    | EndOfFile

  /** A classified lexeme with its 1-based source position. */
  datatype Token = Token(kind: TokenKind, text: string, line: int, column: int)

  predicate IsKeyword(k: TokenKind) {
    k.Int? || k.Float? || k.If? || k.Else? || k.While? || k.Return?
  }

  /** The six comparison operators the parser accepts at its lowest level. */
  predicate IsComparison(k: TokenKind) {
    k.Greater? || k.GreaterEqual? || k.Less? || k.LessEqual? || k.Equal? || k.NotEqual?
  }
}
