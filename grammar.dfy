/**
 * What the parser computes, as pure functions over the token stream.
 *
 * The parser's state is its position in the stream the lexer hands out: the
 * index `i` of the current token, with the peek token right after it. Each
 * function below takes that index, and returns the node it builds together
 * with the index of the current token when it is done (the last token of
 * the node), or the first error met. The parser class is proved to compute
 * exactly these functions.
 *
 * The functions that call each other mirror the parse methods one for one;
 * the loops of the methods are the functions whose names end in `Loop`.
 * Every call either moves forward in the stream or goes down in the ranks
 * of the `decreases` clauses, which is why parsing always ends.
 */
module Grammar {
  import opened Tokens
  import opened Results
  import opened Ast
  import opened ParserErrors
  import opened ParserTables
  import opened Strconv

  /** A node, and the index of the current token once it is parsed. */
  datatype Parsed<T> = Parsed(value: T, pos: nat)

  /** `ts` is a complete stream and `i` an index in it. */
  predicate InStream(ts: seq<Token>, i: nat) {
    EofTerminated(ts) && i < |ts|
  }

  /** The index of the next current token: one on, except that end-of-input stays put. */
  function Advance(ts: seq<Token>, i: nat): (j: nat)
    requires InStream(ts, i)
    ensures InStream(ts, j)
    ensures i <= j <= i + 1
    ensures j == i <==> ts[i].kind == Eof
  {
    if ts[i].kind == Eof then i else i + 1
  }

  /** The peek token of a parser whose current token is `ts[i]`. */
  function Peek(ts: seq<Token>, i: nat): (t: Token)
    requires InStream(ts, i)
    ensures i + 1 < |ts| ==> t == ts[i + 1]
    ensures i + 1 == |ts| ==> t == ts[i] && t.kind == Eof
  {
    ts[Advance(ts, i)]
  }

  /** The expression that ends at `i` stops there for an operator of `precedence`. */
  predicate Stops(ts: seq<Token>, i: nat, precedence: int)
    requires InStream(ts, i)
  {
    Peek(ts, i).kind == Semicolon || PrecedenceOf(Peek(ts, i).kind) <= precedence || PrecedenceOf(Peek(ts, i).kind) == LOWEST
  }

  /**
   * Moves on when the peek token has kind `t`; otherwise the error names
   * the kind expected and the kind found, and the parser does not move.
   */
  function ExpectPeek(ts: seq<Token>, i: nat, t: TokenType): (r: Result<nat, ParseError>)
    requires InStream(ts, i)
    ensures r.Ok? <==> Peek(ts, i).kind == t
    ensures r.Ok? ==> InStream(ts, r.value) && ts[r.value].kind == t && i <= r.value
    ensures r.Ok? && t != Eof ==> r.value == i + 1
    ensures r.Err? ==> r.error == UnexpectedToken(Peek(ts, i).line, t, Peek(ts, i).kind)
  {
    if Peek(ts, i).kind == t then Ok(Advance(ts, i))
    else Err(UnexpectedToken(Peek(ts, i).line, t, Peek(ts, i).kind))
  }

  /** A statement may end with one semicolon, which is then part of it. */
  function SkipSemicolon(ts: seq<Token>, i: nat): (j: nat)
    requires InStream(ts, i)
    ensures InStream(ts, j) && i <= j
    ensures j != i <==> Peek(ts, i).kind == Semicolon
  {
    if Peek(ts, i).kind == Semicolon then Advance(ts, i) else i
  }

  /** A program: the statements from `i` to the end of the stream. */
  function ParseProgram(ts: seq<Token>, i: nat): (r: Result<Program, ParseError>)
    requires InStream(ts, i)
    ensures ts[i].kind == Eof ==> r == Ok(Program([]))
    ensures ts[i].kind != Eof && ParseStatement(ts, i).Err? ==> r == Err(ParseStatement(ts, i).error)
    ensures ts[i].kind != Eof && r.Ok? ==>
      ParseStatement(ts, i).Ok? && r.value.statements != [] && r.value.statements[0] == ParseStatement(ts, i).value.value
    ensures r.Ok? ==> |r.value.statements| <= |ts| - 1 - i
  {
    var statements :- ParseStatements(ts, i, []);
    Ok(Program(statements))
  }

  /** The statements from `i` to the end of the stream, after those in `acc`. */
  function ParseStatements(ts: seq<Token>, i: nat, acc: seq<Statement>): (r: Result<seq<Statement>, ParseError>)
    requires InStream(ts, i)
    ensures r.Ok? ==> |acc| <= |r.value| <= |acc| + |ts| - 1 - i && r.value[..|acc|] == acc
    decreases |ts| - i
  {
    if ts[i].kind == Eof then Ok(acc)
    else
      var s :- ParseStatement(ts, i);
      ParseStatements(ts, Advance(ts, s.pos), acc + [s.value])
  }

  /** A statement: its first token decides which kind. */
  function ParseStatement(ts: seq<Token>, i: nat): (r: Result<Parsed<Statement>, ParseError>)
    requires InStream(ts, i)
    ensures r.Ok? ==> i <= r.value.pos < |ts| && r.value.value.token == ts[i]
    ensures r.Ok? ==> (r.value.value.LetStatement? <==> ts[i].kind == Let)
    ensures r.Ok? ==> (r.value.value.ReturnStatement? <==> ts[i].kind == Return)
    decreases |ts| - i, 5
  {
    if ts[i].kind == Let then ParseLetStatement(ts, i)
    else if ts[i].kind == Return then ParseReturnStatement(ts, i)
    else ParseExpressionStatement(ts, i)
  }

  /** `let <identifier> = <expression>`, then an optional semicolon. */
  function ParseLetStatement(ts: seq<Token>, i: nat): (r: Result<Parsed<Statement>, ParseError>)
    requires InStream(ts, i)
    ensures r.Ok? ==> i < r.value.pos < |ts| && r.value.value.LetStatement? && r.value.value.token == ts[i]
    ensures r.Ok? ==> r.value.value.name.token == ts[i + 1] && ts[i + 1].kind == Ident
    ensures Peek(ts, i).kind != Ident ==> r == Err(UnexpectedToken(Peek(ts, i).line, Ident, Peek(ts, i).kind))
    decreases |ts| - i, 4
  {
    var j :- ExpectPeek(ts, i, Ident);
    var k :- ExpectPeek(ts, j, Assign);
    var value :- ParseExpression(ts, Advance(ts, k), LOWEST);
    Ok(Parsed(LetStatement(ts[i], Identifier(ts[j], ts[j].literal), value.value), SkipSemicolon(ts, value.pos)))
  }

  /** `return <expression>`, then an optional semicolon. */
  function ParseReturnStatement(ts: seq<Token>, i: nat): (r: Result<Parsed<Statement>, ParseError>)
    requires InStream(ts, i)
    ensures r.Ok? ==> i < r.value.pos < |ts| && r.value.value.ReturnStatement? && r.value.value.token == ts[i]
    decreases |ts| - i, 4
  {
    var value :- ParseExpression(ts, Advance(ts, i), LOWEST);
    Ok(Parsed(ReturnStatement(ts[i], value.value), SkipSemicolon(ts, value.pos)))
  }

  /** An expression used as a statement, then an optional semicolon. */
  function ParseExpressionStatement(ts: seq<Token>, i: nat): (r: Result<Parsed<Statement>, ParseError>)
    requires InStream(ts, i)
    ensures r.Ok? ==> i <= r.value.pos < |ts| && r.value.value.ExpressionStatement? && r.value.value.token == ts[i]
    decreases |ts| - i, 4
  {
    var e :- ParseExpression(ts, i, LOWEST);
    Ok(Parsed(ExpressionStatement(ts[i], e.value), SkipSemicolon(ts, e.pos)))
  }

  /**
   * The longest expression from `i` whose operators bind tighter than
   * `precedence`: the prefix handler of the current token, then as many
   * infix handlers as the peek tokens allow.
   */
  function ParseExpression(ts: seq<Token>, i: nat, precedence: int): (r: Result<Parsed<Expression>, ParseError>)
    requires InStream(ts, i)
    ensures PrefixFnOf(ts[i].kind).None? ==> r == Err(NoPrefixParseFn(ts[i].line, ts[i].kind))
    ensures r.Ok? ==> i <= r.value.pos < |ts| && Stops(ts, r.value.pos, precedence)
    decreases |ts| - i, 3
  {
    if PrefixFnOf(ts[i].kind).None? then Err(NoPrefixParseFn(ts[i].line, ts[i].kind))
    else
      var left :- CallPrefix(ts, i, PrefixFnOf(ts[i].kind).value);
      InfixLoop(ts, left.pos, precedence, left.value)
  }

  /** The prefix handler `fn`, registered for the current token's kind. */
  function CallPrefix(ts: seq<Token>, i: nat, fn: PrefixParseFn): (r: Result<Parsed<Expression>, ParseError>)
    requires InStream(ts, i) && PrefixFnOf(ts[i].kind) == Some(fn)
    ensures r.Ok? ==> i <= r.value.pos < |ts|
    decreases |ts| - i, 2
  {
    match fn
    case ParseIdentifierFn => ParseIdentifier(ts, i)
    case ParseIntegerLiteralFn => ParseIntegerLiteral(ts, i)
    case ParsePrefixExpressionFn => ParsePrefixExpression(ts, i)
    case ParseBooleanFn => ParseBoolean(ts, i)
    case ParseGroupedExpressionFn => ParseGroupedExpression(ts, i)
    case ParseIfExpressionFn => ParseIfExpression(ts, i)
    case ParseFunctionLiteralFn => ParseFunctionLiteral(ts, i)
  }

  /**
   * The loop of `ParseExpression`: while the peek token is not a semicolon
   * and binds tighter than `precedence`, it becomes the current token and
   * its infix handler extends `left`.
   */
  function InfixLoop(ts: seq<Token>, i: nat, precedence: int, left: Expression): (r: Result<Parsed<Expression>, ParseError>)
    requires InStream(ts, i)
    ensures r.Ok? ==> i <= r.value.pos < |ts| && Stops(ts, r.value.pos, precedence)
    decreases |ts| - i, 2
  {
    var next := Peek(ts, i);
    if next.kind == Semicolon || precedence >= PrecedenceOf(next.kind) then Ok(Parsed(left, i))
    else if InfixFnOf(next.kind).None? then Ok(Parsed(left, i))
    else
      var e :- CallInfix(ts, Advance(ts, i), InfixFnOf(next.kind).value, left);
      InfixLoop(ts, e.pos, precedence, e.value)
  }

  /** The infix handler `fn`, registered for the current token's kind. */
  function CallInfix(ts: seq<Token>, i: nat, fn: InfixParseFn, left: Expression): (r: Result<Parsed<Expression>, ParseError>)
    requires InStream(ts, i) && InfixFnOf(ts[i].kind) == Some(fn)
    ensures r.Ok? ==> i <= r.value.pos < |ts|
    decreases |ts| - i, 2
  {
    match fn
    case ParseInfixExpressionFn => ParseInfixExpression(ts, i, left)
    case ParseCallExpressionFn => ParseCallExpression(ts, i, left)
  }

  /** An identifier: its name is the text of its token. */
  function ParseIdentifier(ts: seq<Token>, i: nat): (r: Result<Parsed<Expression>, ParseError>)
    requires InStream(ts, i)
    ensures r.Ok? && r.value.pos == i && r.value.value.IdentifierExpression?
    ensures r.value.value.id.token == ts[i] && r.value.value.id.value == ts[i].literal
  {
    Ok(Parsed(IdentifierExpression(Identifier(ts[i], ts[i].literal)), i))
  }

  /**
   * An integer literal: the 64-bit signed value of its text, or an error
   * naming the text when it has none.
   */
  function ParseIntegerLiteral(ts: seq<Token>, i: nat): (r: Result<Parsed<Expression>, ParseError>)
    requires InStream(ts, i)
    ensures r.Ok? <==> ParseInt64(ts[i].literal).Some?
    ensures r.Ok? ==> r.value.pos == i && r.value.value.IntegerLiteral? && r.value.value.token == ts[i]
    ensures r.Ok? ==> 0 <= r.value.value.intValue <= MaxInt64
    ensures r.Err? ==> r.error == Integer(ts[i].line, ts[i].literal)
  {
    match ParseInt64(ts[i].literal)
    case None => Err(Integer(ts[i].line, ts[i].literal))
    case Some(v) => Ok(Parsed(IntegerLiteral(ts[i], v), i))
  }

  /** `true` or `false`: the value is true exactly for the `true` keyword. */
  function ParseBoolean(ts: seq<Token>, i: nat): (r: Result<Parsed<Expression>, ParseError>)
    requires InStream(ts, i)
    ensures r.Ok? && r.value.pos == i && r.value.value.Boolean? && r.value.value.token == ts[i]
    ensures r.value.value.boolValue <==> ts[i].kind == True
  {
    Ok(Parsed(Boolean(ts[i], ts[i].kind == True), i))
  }

  /**
   * `!` or `-` applied to the operand that follows, which takes every
   * operator binding tighter than the prefix level, and so only calls.
   */
  function ParsePrefixExpression(ts: seq<Token>, i: nat): (r: Result<Parsed<Expression>, ParseError>)
    requires InStream(ts, i) && PrefixFnOf(ts[i].kind) == Some(ParsePrefixExpressionFn)
    ensures r.Ok? ==> i < r.value.pos < |ts| && Stops(ts, r.value.pos, PREFIX)
    ensures r.Ok? ==> r.value.value.PrefixExpression? && r.value.value.token == ts[i] && r.value.value.operator == ts[i].literal
    decreases |ts| - i, 1
  {
    var right :- ParseExpression(ts, Advance(ts, i), PREFIX);
    Ok(Parsed(PrefixExpression(ts[i], ts[i].literal, right.value), right.pos))
  }

  /**
   * A binary operator applied to `left` and to the operand that follows,
   * which takes every operator binding tighter than this one: operators of
   * one level group to the left.
   */
  function ParseInfixExpression(ts: seq<Token>, i: nat, left: Expression): (r: Result<Parsed<Expression>, ParseError>)
    requires InStream(ts, i) && IsBinaryOperator(ts[i].kind)
    ensures r.Ok? ==> i < r.value.pos < |ts| && Stops(ts, r.value.pos, PrecedenceOf(ts[i].kind))
    ensures r.Ok? ==> r.value.value.InfixExpression? && r.value.value.token == ts[i]
    ensures r.Ok? ==> r.value.value.left == left && r.value.value.operator == ts[i].literal
    decreases |ts| - i, 1
  {
    var precedence := PrecedenceOf(ts[i].kind);
    var right :- ParseExpression(ts, Advance(ts, i), precedence);
    Ok(Parsed(InfixExpression(ts[i], left, ts[i].literal, right.value), right.pos))
  }

  /** `( <expression> )`: the expression itself, with no node of its own. */
  function ParseGroupedExpression(ts: seq<Token>, i: nat): (r: Result<Parsed<Expression>, ParseError>)
    requires InStream(ts, i) && PrefixFnOf(ts[i].kind) == Some(ParseGroupedExpressionFn)
    ensures r.Ok? ==> i < r.value.pos < |ts| && ts[r.value.pos].kind == RParen
    decreases |ts| - i, 1
  {
    var e :- ParseExpression(ts, Advance(ts, i), LOWEST);
    var j :- ExpectPeek(ts, e.pos, RParen);
    Ok(Parsed(e.value, j))
  }

  /** `if ( <condition> ) <block>`, then optionally `else <block>`. */
  function ParseIfExpression(ts: seq<Token>, i: nat): (r: Result<Parsed<Expression>, ParseError>)
    requires InStream(ts, i)
    ensures r.Ok? ==> i < r.value.pos < |ts| && (ts[r.value.pos].kind == RBrace || ts[r.value.pos].kind == Eof)
    ensures r.Ok? ==> r.value.value.IfExpression? && r.value.value.token == ts[i]
    decreases |ts| - i, 1
  {
    var j :- ExpectPeek(ts, i, LParen);
    var condition :- ParseExpression(ts, Advance(ts, j), LOWEST);
    var k :- ExpectPeek(ts, condition.pos, RParen);
    var l :- ExpectPeek(ts, k, LBrace);
    var consequence :- ParseBlockStatement(ts, l);
    var alternative :- ParseElse(ts, consequence.pos);
    Ok(Parsed(IfExpression(ts[i], condition.value, consequence.value, alternative.value), alternative.pos))
  }

  /**
   * The optional `else <block>` after the consequence of an `if`, which
   * ends at `i`: no block, and the cursor left at `i`, unless the peek
   * token is `else`.
   */
  function ParseElse(ts: seq<Token>, i: nat): (r: Result<Parsed<Option<BlockStatement>>, ParseError>)
    requires InStream(ts, i)
    ensures r.Ok? && r.value.value.None? ==> r.value.pos == i
    ensures r.Ok? && r.value.value.Some? ==> i < r.value.pos < |ts| && (ts[r.value.pos].kind == RBrace || ts[r.value.pos].kind == Eof)
    decreases |ts| - i, 1
  {
    if Peek(ts, i).kind == Else then
      var m :- ExpectPeek(ts, Advance(ts, i), LBrace);
      var alternative :- ParseBlockStatement(ts, m);
      Ok(Parsed(Some(alternative.value), alternative.pos))
    else
      Ok(Parsed(None, i))
  }

  /**
   * `{ <statements> }`: the statements up to the closing brace, or up to
   * the end of the input when the brace is missing.
   */
  function ParseBlockStatement(ts: seq<Token>, i: nat): (r: Result<Parsed<BlockStatement>, ParseError>)
    requires InStream(ts, i) && ts[i].kind == LBrace
    ensures r.Ok? ==> i < r.value.pos < |ts| && (ts[r.value.pos].kind == RBrace || ts[r.value.pos].kind == Eof)
    ensures r.Ok? ==> r.value.value.token == ts[i]
    decreases |ts| - i, 1
  {
    var statements :- BlockLoop(ts, Advance(ts, i), []);
    Ok(Parsed(BlockStatement(ts[i], statements.value), statements.pos))
  }

  /** The loop of `ParseBlockStatement`: the statements from `i` on, after those in `acc`. */
  function BlockLoop(ts: seq<Token>, i: nat, acc: seq<Statement>): (r: Result<Parsed<seq<Statement>>, ParseError>)
    requires InStream(ts, i)
    ensures r.Ok? ==> i <= r.value.pos < |ts| && (ts[r.value.pos].kind == RBrace || ts[r.value.pos].kind == Eof)
    ensures r.Ok? ==> |acc| <= |r.value.value| && r.value.value[..|acc|] == acc
    decreases |ts| - i, 6
  {
    if ts[i].kind == RBrace || ts[i].kind == Eof then Ok(Parsed(acc, i))
    else
      var s :- ParseStatement(ts, i);
      BlockLoop(ts, Advance(ts, s.pos), acc + [s.value])
  }

  /** `fn ( <parameters> ) <block>`. */
  function ParseFunctionLiteral(ts: seq<Token>, i: nat): (r: Result<Parsed<Expression>, ParseError>)
    requires InStream(ts, i)
    ensures r.Ok? ==> i < r.value.pos < |ts| && (ts[r.value.pos].kind == RBrace || ts[r.value.pos].kind == Eof)
    ensures r.Ok? ==> r.value.value.FunctionLiteral? && r.value.value.token == ts[i]
    decreases |ts| - i, 1
  {
    var j :- ExpectPeek(ts, i, LParen);
    var parameters :- ParseFunctionParameters(ts, j);
    var k :- ExpectPeek(ts, parameters.pos, LBrace);
    var body :- ParseBlockStatement(ts, k);
    Ok(Parsed(FunctionLiteral(ts[i], parameters.value, body.value), body.pos))
  }

  /**
   * The parameters after `(`, separated by commas, up to `)`. The token
   * after `(` and after each comma becomes a parameter whatever its kind.
   */
  function ParseFunctionParameters(ts: seq<Token>, i: nat): (r: Result<Parsed<seq<Identifier>>, ParseError>)
    requires InStream(ts, i)
    ensures r.Ok? ==> i < r.value.pos < |ts| && ts[r.value.pos].kind == RParen
    ensures r.Ok? ==> forall p | p in r.value.value :: p.value == p.token.literal
  {
    if Peek(ts, i).kind == RParen then Ok(Parsed([], Advance(ts, i)))
    else
      var j := Advance(ts, i);
      ParamsLoop(ts, j, [Identifier(ts[j], ts[j].literal)])
  }

  /** The loop of `ParseFunctionParameters`. */
  function ParamsLoop(ts: seq<Token>, i: nat, acc: seq<Identifier>): (r: Result<Parsed<seq<Identifier>>, ParseError>)
    requires InStream(ts, i)
    requires forall p | p in acc :: p.value == p.token.literal
    ensures r.Ok? ==> i < r.value.pos < |ts| && ts[r.value.pos].kind == RParen
    ensures r.Ok? ==> |acc| <= |r.value.value| && r.value.value[..|acc|] == acc
    ensures r.Ok? ==> forall p | p in r.value.value :: p.value == p.token.literal
    decreases |ts| - i
  {
    if Peek(ts, i).kind == Comma then
      var j := Advance(ts, Advance(ts, i));
      ParamsLoop(ts, j, acc + [Identifier(ts[j], ts[j].literal)])
    else
      var k :- ExpectPeek(ts, i, RParen);
      Ok(Parsed(acc, k))
  }

  /**
   * A call of `callee`: the arguments that follow the current `(`. The
   * node's token is the closing `)`, the current token once the arguments
   * are read.
   */
  function ParseCallExpression(ts: seq<Token>, i: nat, callee: Expression): (r: Result<Parsed<Expression>, ParseError>)
    requires InStream(ts, i) && ts[i].kind == LParen
    ensures r.Ok? ==> i < r.value.pos < |ts| && ts[r.value.pos].kind == RParen
    ensures r.Ok? ==> r.value.value.CallExpression? && r.value.value.callee == callee
    ensures r.Ok? ==> r.value.value.token == ts[r.value.pos]
    decreases |ts| - i, 1
  {
    var arguments :- ParseCallArguments(ts, i);
    Ok(Parsed(CallExpression(ts[arguments.pos], callee, arguments.value), arguments.pos))
  }

  /** The arguments after `(`, separated by commas, up to `)`. */
  function ParseCallArguments(ts: seq<Token>, i: nat): (r: Result<Parsed<seq<Expression>>, ParseError>)
    requires InStream(ts, i) && ts[i].kind == LParen
    ensures r.Ok? ==> i < r.value.pos < |ts| && ts[r.value.pos].kind == RParen
    decreases |ts| - i, 0
  {
    if Peek(ts, i).kind == RParen then Ok(Parsed([], Advance(ts, i)))
    else
      var argument :- ParseExpression(ts, Advance(ts, i), LOWEST);
      ArgsLoop(ts, argument.pos, [argument.value])
  }

  /** The loop of `ParseCallArguments`. */
  function ArgsLoop(ts: seq<Token>, i: nat, acc: seq<Expression>): (r: Result<Parsed<seq<Expression>>, ParseError>)
    requires InStream(ts, i)
    ensures r.Ok? ==> i < r.value.pos < |ts| && ts[r.value.pos].kind == RParen
    ensures r.Ok? ==> |acc| <= |r.value.value| && r.value.value[..|acc|] == acc
    decreases |ts| - i, 0
  {
    if Peek(ts, i).kind == Comma then
      var argument :- ParseExpression(ts, Advance(ts, Advance(ts, i)), LOWEST);
      ArgsLoop(ts, argument.pos, acc + [argument.value])
    else
      var k :- ExpectPeek(ts, i, RParen);
      Ok(Parsed(acc, k))
  }
}
