/**
 * Tokens (pylox/token.py). The token kinds come from token_type.py, which is
 * not part of this model: the kinds below are the ones the scanner, parser and
 * interpreter refer to, plus the keyword kinds the parser's synchronisation
 * names.
 */
module Tokens {

  datatype TokenType =
    // single-character punctuation
    | LeftParen | RightParen | LeftBrace | RightBrace
    | Comma | Dot | Minus | Plus | Semicolon | Slash | Star
    // one- or two-character operators
    | Bang | BangEqual | Equal | EqualEqual
    | Greater | GreaterEqual | Less | LessEqual
    // literals
    | Identifier | String | Number
    // keywords
    | And | Class | Else | False | Fun | For | If | Nil | Or
    | Print | Return | Super | This | True | Var | While
    | Eof

  /**
   * A host value carried by a token or by a literal node. Python's `None`,
   * `bool`, `int`, `float` and `str` are kept apart because the interpreter
   * and the printer treat them differently (`str(1)` is "1", `str(1.0)` is
   * "1.0", `str(True)` is "True").
   */
  datatype Lit = NoLit | BoolLit(b: bool) | IntLit(i: int) | FloatLit(x: real) | StrLit(s: string)

  /**
   * One token. The source's constructor stores the text as `lexme`
   * (pylox/token.py:4) while every reader uses `lexeme`; the model has the
   * one field `lexeme`. The field `type` is named `kind` (a Dafny keyword).
   */
  datatype Token = Token(kind: TokenType, lexeme: string, literal: Lit, line: int)
}
