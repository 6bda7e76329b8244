/** The three errors the parser reports; the first one ends parsing. */
module ParserErrors {
  import opened Tokens

  datatype ParseError =
      /** The next token is not of the kind the grammar requires here. */
    | UnexpectedToken(line: int, expected: TokenType, got: TokenType)
      /** No expression can start with a token of this kind. */
    | NoPrefixParseFn(line: int, tokenType: TokenType)
      /** An integer literal that does not convert to a 64-bit signed integer. */
    | Integer(line: int, literal: Bytes)
}
