/** Tokens, as the lexer hands them to the parser. */
module Tokens {
  datatype Kind =
    | TextKind
    | ExpressionOpen | ExpressionClose
    | LineStatementOpen | LineStatementClose
    | StatementOpen | StatementClose
    | CommentOpen | CommentClose
    | Id | Number | String
    | Comma | Colon
    | LeftParen | RightParen
    | LeftBracket | RightBracket
    | LeftBrace | RightBrace
    | EqualKind | GreaterThan | GreaterEqualKind | LessThan | LessEqualKind | NotEqual
    | Unknown
    | Eof

  /** A token: its kind, its text, and where in the source that text starts. */
  datatype Token = Token(kind: Kind, text: string, start: nat)

  function End(t: Token): nat {
    t.start + |t.text|
  }

  /** A token as a reader sees it, wherever it stands. */
  datatype Shown = Shown(kind: Kind, text: string)
}
