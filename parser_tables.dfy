/**
 * The parser's fixed tables: the precedence levels, the precedence of each
 * operator token, and which handler parses an expression that starts with,
 * or continues at, a token of each kind.
 */
module ParserTables {
  import opened Tokens
  import opened Results

  /** Precedence levels, lowest first (level 0 is unused). */
  const LOWEST: int := 1
  const EQUALS: int := 2
  const LESSGREATER: int := 3
  const SUM: int := 4
  const PRODUCT: int := 5
  const PREFIX: int := 6
  const CALL: int := 7

  const Precedences: map<TokenType, int> := map[
    Eq := EQUALS, NotEq := EQUALS,
    Lt := LESSGREATER, Gt := LESSGREATER,
    Plus := SUM, Minus := SUM,
    Slash := PRODUCT, Asterisk := PRODUCT,
    LParen := CALL]

  /** The handlers that start an expression. */
  datatype PrefixParseFn =
    | ParseIdentifierFn
    | ParseIntegerLiteralFn
    | ParsePrefixExpressionFn
    | ParseBooleanFn
    | ParseGroupedExpressionFn
    | ParseIfExpressionFn
    | ParseFunctionLiteralFn

  /** The handlers that continue an expression already parsed. */
  datatype InfixParseFn = ParseInfixExpressionFn | ParseCallExpressionFn

  /** The prefix handlers the parser registers, by token kind. */
  const PrefixParseFns: map<TokenType, PrefixParseFn> := map[
    Ident := ParseIdentifierFn,
    Int := ParseIntegerLiteralFn,
    Bang := ParsePrefixExpressionFn,
    Minus := ParsePrefixExpressionFn,
    True := ParseBooleanFn,
    False := ParseBooleanFn,
    LParen := ParseGroupedExpressionFn,
    If := ParseIfExpressionFn,
    Function := ParseFunctionLiteralFn]

  /** The infix handlers the parser registers, by token kind. */
  const InfixParseFns: map<TokenType, InfixParseFn> := map[
    Plus := ParseInfixExpressionFn,
    Minus := ParseInfixExpressionFn,
    Slash := ParseInfixExpressionFn,
    Asterisk := ParseInfixExpressionFn,
    Eq := ParseInfixExpressionFn,
    NotEq := ParseInfixExpressionFn,
    Lt := ParseInfixExpressionFn,
    Gt := ParseInfixExpressionFn,
    LParen := ParseCallExpressionFn]

  /** The eight binary operators. */
  predicate IsBinaryOperator(k: TokenType) {
    InfixFnOf(k) == Some(ParseInfixExpressionFn)
  }

  /** The prefix handler registered for `k`, if any, read off the table by cases. */
  function PrefixFnOf(k: TokenType): (r: Option<PrefixParseFn>)
    ensures r.Some? ==> k != Illegal && k != Eof
    ensures r.Some? && InfixFnOf(k).Some? <==> k == Minus || k == LParen
  {
    match k
    case Ident => Some(ParseIdentifierFn)
    case Int => Some(ParseIntegerLiteralFn)
    case Bang | Minus => Some(ParsePrefixExpressionFn)
    case True | False => Some(ParseBooleanFn)
    case LParen => Some(ParseGroupedExpressionFn)
    case If => Some(ParseIfExpressionFn)
    case Function => Some(ParseFunctionLiteralFn)
    case _ => None
  }

  /** The infix handler registered for `k`, if any, read off the table by cases. */
  function InfixFnOf(k: TokenType): (r: Option<InfixParseFn>)
    ensures r.Some? ==> k != Illegal && k != Eof && k != Semicolon && k != Comma && k != RParen && k != RBrace
    ensures r == Some(ParseCallExpressionFn) <==> k == LParen
  {
    match k
    case Plus | Minus | Slash | Asterisk | Eq | NotEq | Lt | Gt => Some(ParseInfixExpressionFn)
    case LParen => Some(ParseCallExpressionFn)
    case _ => None
  }

  /** The case analysis agrees with the precedence table, LOWEST standing for a missing entry. */
  lemma PrecedencesAgree(k: TokenType)
    ensures PrecedenceOf(k) == if k in Precedences then Precedences[k] else LOWEST
  {
  }

  /** The case analyses agree with the registration tables. */
  lemma TablesAgree(k: TokenType)
    ensures k in PrefixParseFns <==> PrefixFnOf(k).Some?
    ensures k in PrefixParseFns ==> PrefixParseFns[k] == PrefixFnOf(k).value
    ensures k in InfixParseFns <==> InfixFnOf(k).Some?
    ensures k in InfixParseFns ==> InfixParseFns[k] == InfixFnOf(k).value
  {
  }

  /**
   * The precedence of a token kind: its entry in the table, LOWEST for a
   * kind without one. A kind binds above LOWEST exactly when an infix
   * handler is registered for it, and no token has the level reserved for
   * prefix operators.
   */
  function PrecedenceOf(k: TokenType): (p: int)
    ensures LOWEST <= p <= CALL && p != PREFIX
    ensures p > LOWEST <==> InfixFnOf(k).Some?
    ensures p == CALL <==> k == LParen
  {
    match k
    case Eq | NotEq => EQUALS
    case Lt | Gt => LESSGREATER
    case Plus | Minus => SUM
    case Slash | Asterisk => PRODUCT
    case LParen => CALL
    case _ => LOWEST
  }
}
