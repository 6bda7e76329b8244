/**
 * One step of each parse function, stated for a stream whose next tokens
 * are known and whose inner parses have already succeeded: what the
 * function returns is then the result of the step, or the loop it goes on
 * with.
 */
module GrammarSteps {
  import opened Tokens
  import opened Results
  import opened Ast
  import opened ParserTables
  import opened Grammar
  import opened Strconv
  import opened GrammarLaws

  /** The tokens that may follow a printed operand; none of them is an operator. */
  predicate Closes(k: TokenType) {
    k == RParen || k == Semicolon || k == Comma
  }

  /** An expression whose next token closes it: the loop stops at once, at any precedence. */
  lemma Closed(ts: seq<Token>, last: nat, next: nat, precedence: int, left: Expression)
    requires EofTerminated(ts) && next < |ts| && last + 1 == next
    requires Closes(ts[next].kind) && LOWEST <= precedence
    ensures InfixLoop(ts, last, precedence, left) == Ok(Parsed(left, last))
  {
    LoopStops(ts, last, precedence, left);
  }

  /** An expression that starts with `(`: the loop goes on after the group's `)`. */
  lemma GroupStart(ts: seq<Token>, i: nat, precedence: int, e: Expression, j: nat)
    requires InStream(ts, i) && ts[i].kind == LParen
    requires ParseGroupedExpression(ts, i) == Ok(Parsed(e, j))
    ensures ParseExpression(ts, i, precedence) == InfixLoop(ts, j, precedence, e)
  {
    assert CallPrefix(ts, i, ParseGroupedExpressionFn) == Ok(Parsed(e, j));
  }

  /** `( e )`: the group is `e`, and ends on the `)`. */
  lemma GroupSteps(ts: seq<Token>, i: nat, e: Expression, j: nat)
    requires InStream(ts, i) && ts[i].kind == LParen && i + 1 < |ts|
    requires ParseExpression(ts, i + 1, LOWEST) == Ok(Parsed(e, j))
    requires j + 1 < |ts| && ts[j + 1].kind == RParen
    ensures ParseGroupedExpression(ts, i) == Ok(Parsed(e, j + 1))
  {
  }

  /** An expression that starts with `true` or `false`: the loop goes on from that literal. */
  lemma BooleanStart(ts: seq<Token>, i: nat, precedence: int)
    requires InStream(ts, i) && (ts[i].kind == True || ts[i].kind == False)
    ensures ParseExpression(ts, i, precedence) == InfixLoop(ts, i, precedence, Boolean(ts[i], ts[i].kind == True))
  {
    assert CallPrefix(ts, i, ParseBooleanFn) == Ok(Parsed(Boolean(ts[i], ts[i].kind == True), i));
  }

  /** `!` or `-` and its operand: the loop goes on after the operand with the prefix node. */
  lemma PrefixSteps(ts: seq<Token>, i: nat, precedence: int, right: Expression, j: nat)
    requires InStream(ts, i) && (ts[i].kind == Bang || ts[i].kind == Minus) && i + 1 < |ts|
    requires ParseExpression(ts, i + 1, PREFIX) == Ok(Parsed(right, j))
    ensures ParseExpression(ts, i, precedence) == InfixLoop(ts, j, precedence, PrefixExpression(ts[i], ts[i].literal, right))
  {
    PrefixStart(ts, i, precedence);
  }

  /** A binary operator that binds tighter than `precedence`, and its right operand. */
  lemma OperatorSteps(ts: seq<Token>, i: nat, precedence: int, left: Expression, right: Expression, j: nat)
    requires InStream(ts, i) && i + 2 < |ts|
    requires IsBinaryOperator(ts[i + 1].kind) && precedence < PrecedenceOf(ts[i + 1].kind)
    requires ParseExpression(ts, i + 2, PrecedenceOf(ts[i + 1].kind)) == Ok(Parsed(right, j))
    ensures InfixLoop(ts, i, precedence, left) == InfixLoop(ts, j, precedence, InfixExpression(ts[i + 1], left, ts[i + 1].literal, right))
  {
    OperatorStep(ts, i, precedence, left);
  }

  /** A `(` after a callee when `precedence` is below the call level, and the arguments. */
  lemma CallSteps(ts: seq<Token>, i: nat, precedence: int, callee: Expression, arguments: seq<Expression>, j: nat)
    requires InStream(ts, i) && i + 1 < |ts| && ts[i + 1].kind == LParen && precedence < CALL
    requires ParseCallArguments(ts, i + 1) == Ok(Parsed(arguments, j))
    ensures InfixLoop(ts, i, precedence, callee) == InfixLoop(ts, j, precedence, CallExpression(ts[j], callee, arguments))
  {
    CallStep(ts, i, precedence, callee);
  }

  /** `if ( condition ) consequence` and what `ParseElse` makes of the rest. */
  lemma IfSteps(ts: seq<Token>, i: nat, precedence: int, condition: Expression, c: nat,
                consequence: BlockStatement, b: nat, alternative: Option<BlockStatement>, end: nat)
    requires InStream(ts, i) && ts[i].kind == If && i + 2 < |ts| && ts[i + 1].kind == LParen
    requires ParseExpression(ts, i + 2, LOWEST) == Ok(Parsed(condition, c))
    requires c + 2 < |ts| && ts[c + 1].kind == RParen && ts[c + 2].kind == LBrace
    requires ParseBlockStatement(ts, c + 2) == Ok(Parsed(consequence, b))
    requires ParseElse(ts, b) == Ok(Parsed(alternative, end))
    ensures ParseExpression(ts, i, precedence) == InfixLoop(ts, end, precedence, IfExpression(ts[i], condition, consequence, alternative))
  {
    var e := IfExpression(ts[i], condition, consequence, alternative);
    IfParses(ts, i, condition, c, consequence, b, alternative, end);
    assert CallPrefix(ts, i, ParseIfExpressionFn) == Ok(Parsed(e, end));
  }

  lemma IfParses(ts: seq<Token>, i: nat, condition: Expression, c: nat,
                 consequence: BlockStatement, b: nat, alternative: Option<BlockStatement>, end: nat)
    requires InStream(ts, i) && i + 2 < |ts| && ts[i + 1].kind == LParen
    requires ParseExpression(ts, i + 2, LOWEST) == Ok(Parsed(condition, c))
    requires c + 2 < |ts| && ts[c + 1].kind == RParen && ts[c + 2].kind == LBrace
    requires ParseBlockStatement(ts, c + 2) == Ok(Parsed(consequence, b))
    requires ParseElse(ts, b) == Ok(Parsed(alternative, end))
    ensures ParseIfExpression(ts, i) == Ok(Parsed(IfExpression(ts[i], condition, consequence, alternative), end))
  {
    IfPunctuation(ts, i, c);
  }

  /** The punctuation of an `if`: `(` after the keyword, `)` and `{` after the condition. */
  lemma IfPunctuation(ts: seq<Token>, i: nat, c: nat)
    requires InStream(ts, i) && i + 2 < |ts| && ts[i + 1].kind == LParen
    requires c + 2 < |ts| && ts[c + 1].kind == RParen && ts[c + 2].kind == LBrace
    ensures ExpectPeek(ts, i, LParen) == Ok(i + 1) && Advance(ts, i + 1) == i + 2
    ensures ExpectPeek(ts, c, RParen) == Ok(c + 1) && ExpectPeek(ts, c + 1, LBrace) == Ok(c + 2)
  {
  }

  /** No `else`: no alternative, and the cursor stays on the consequence's `}`. */
  lemma NoElse(ts: seq<Token>, b: nat)
    requires InStream(ts, b) && b + 1 < |ts| && ts[b + 1].kind != Else
    ensures ParseElse(ts, b) == Ok(Parsed(None, b))
  {
  }

  /** `else` and a block. */
  lemma ElseSteps(ts: seq<Token>, b: nat, alternative: BlockStatement, end: nat)
    requires InStream(ts, b) && b + 2 < |ts| && ts[b + 1].kind == Else && ts[b + 2].kind == LBrace
    requires ParseBlockStatement(ts, b + 2) == Ok(Parsed(alternative, end))
    ensures ParseElse(ts, b) == Ok(Parsed(Some(alternative), end))
  {
  }

  /** `fn`, the parameters and the body: the loop goes on after the body with the literal. */
  lemma FunctionSteps(ts: seq<Token>, i: nat, precedence: int, parameters: seq<Identifier>, r: nat, body: BlockStatement, end: nat)
    requires InStream(ts, i) && ts[i].kind == Function && i + 1 < |ts| && ts[i + 1].kind == LParen
    requires ParseFunctionParameters(ts, i + 1) == Ok(Parsed(parameters, r))
    requires r + 1 < |ts| && ts[r + 1].kind == LBrace
    requires ParseBlockStatement(ts, r + 1) == Ok(Parsed(body, end))
    ensures ParseExpression(ts, i, precedence) == InfixLoop(ts, end, precedence, FunctionLiteral(ts[i], parameters, body))
  {
    var e := FunctionLiteral(ts[i], parameters, body);
    assert ParseFunctionLiteral(ts, i) == Ok(Parsed(e, end));
    assert CallPrefix(ts, i, ParseFunctionLiteralFn) == Ok(Parsed(e, end));
  }

  lemma NoArguments(ts: seq<Token>, i: nat)
    requires InStream(ts, i) && ts[i].kind == LParen && i + 1 < |ts| && ts[i + 1].kind == RParen
    ensures ParseCallArguments(ts, i) == Ok(Parsed([], i + 1))
  {
  }

  lemma FirstArgument(ts: seq<Token>, i: nat, first: Expression, j: nat)
    requires InStream(ts, i) && ts[i].kind == LParen && i + 1 < |ts| && ts[i + 1].kind != RParen
    requires ParseExpression(ts, i + 1, LOWEST) == Ok(Parsed(first, j))
    ensures ParseCallArguments(ts, i) == ArgsLoop(ts, j, [first])
  {
  }

  lemma LastArgument(ts: seq<Token>, j: nat, acc: seq<Expression>)
    requires InStream(ts, j) && j + 1 < |ts| && ts[j + 1].kind == RParen
    ensures ArgsLoop(ts, j, acc) == Ok(Parsed(acc, j + 1))
  {
  }

  lemma NextArgument(ts: seq<Token>, j: nat, acc: seq<Expression>, argument: Expression, k: nat)
    requires InStream(ts, j) && j + 2 < |ts| && ts[j + 1].kind == Comma
    requires ParseExpression(ts, j + 2, LOWEST) == Ok(Parsed(argument, k))
    ensures ArgsLoop(ts, j, acc) == ArgsLoop(ts, k, acc + [argument])
  {
  }

  lemma NoParameters(ts: seq<Token>, i: nat)
    requires InStream(ts, i) && i + 1 < |ts| && ts[i + 1].kind == RParen
    ensures ParseFunctionParameters(ts, i) == Ok(Parsed([], i + 1))
  {
  }

  lemma FirstParameter(ts: seq<Token>, i: nat)
    requires InStream(ts, i) && i + 1 < |ts| && ts[i + 1].kind != RParen
    ensures ParseFunctionParameters(ts, i) == ParamsLoop(ts, i + 1, [Identifier(ts[i + 1], ts[i + 1].literal)])
  {
  }

  lemma LastParameter(ts: seq<Token>, j: nat, acc: seq<Identifier>)
    requires InStream(ts, j) && j + 1 < |ts| && ts[j + 1].kind == RParen
    requires forall p | p in acc :: p.value == p.token.literal
    ensures ParamsLoop(ts, j, acc) == Ok(Parsed(acc, j + 1))
  {
  }

  lemma NextParameter(ts: seq<Token>, j: nat, acc: seq<Identifier>)
    requires InStream(ts, j) && j + 2 < |ts| && ts[j + 1].kind == Comma
    requires forall p | p in acc :: p.value == p.token.literal
    ensures ParamsLoop(ts, j, acc) == ParamsLoop(ts, j + 2, acc + [Identifier(ts[j + 2], ts[j + 2].literal)])
  {
  }

  lemma BlockSteps(ts: seq<Token>, i: nat, statements: seq<Statement>, j: nat)
    requires InStream(ts, i) && ts[i].kind == LBrace && i + 1 < |ts|
    requires BlockLoop(ts, i + 1, []) == Ok(Parsed(statements, j))
    ensures ParseBlockStatement(ts, i) == Ok(Parsed(BlockStatement(ts[i], statements), j))
  {
  }

  lemma BlockEnd(ts: seq<Token>, j: nat, acc: seq<Statement>)
    requires InStream(ts, j) && (ts[j].kind == RBrace || ts[j].kind == Eof)
    ensures BlockLoop(ts, j, acc) == Ok(Parsed(acc, j))
  {
  }

  lemma NextInBlock(ts: seq<Token>, j: nat, acc: seq<Statement>, s: Statement, k: nat)
    requires InStream(ts, j) && ts[j].kind != RBrace && ts[j].kind != Eof
    requires ParseStatement(ts, j) == Ok(Parsed(s, k)) && k + 1 < |ts|
    ensures BlockLoop(ts, j, acc) == BlockLoop(ts, k + 1, acc + [s])
  {
    assert Advance(ts, k) == k + 1;
  }

  lemma ProgramEnd(ts: seq<Token>, j: nat, acc: seq<Statement>)
    requires InStream(ts, j) && ts[j].kind == Eof
    ensures ParseStatements(ts, j, acc) == Ok(acc)
  {
  }

  lemma NextInProgram(ts: seq<Token>, j: nat, acc: seq<Statement>, s: Statement, k: nat)
    requires InStream(ts, j) && ts[j].kind != Eof
    requires ParseStatement(ts, j) == Ok(Parsed(s, k)) && k + 1 < |ts|
    ensures ParseStatements(ts, j, acc) == ParseStatements(ts, k + 1, acc + [s])
  {
  }

  /** `let name = value;` */
  lemma LetSteps(ts: seq<Token>, i: nat, value: Expression, j: nat)
    requires InStream(ts, i) && ts[i].kind == Let && i + 3 < |ts| && ts[i + 1].kind == Ident && ts[i + 2].kind == Assign
    requires ParseExpression(ts, i + 3, LOWEST) == Ok(Parsed(value, j))
    requires j + 1 < |ts| && ts[j + 1].kind == Semicolon
    ensures ParseStatement(ts, i) == Ok(Parsed(LetStatement(ts[i], Identifier(ts[i + 1], ts[i + 1].literal), value), j + 1))
  {
  }

  /** `return value;` */
  lemma ReturnSteps(ts: seq<Token>, i: nat, value: Expression, j: nat)
    requires InStream(ts, i) && ts[i].kind == Return && i + 1 < |ts|
    requires ParseExpression(ts, i + 1, LOWEST) == Ok(Parsed(value, j))
    requires j + 1 < |ts| && ts[j + 1].kind == Semicolon
    ensures ParseStatement(ts, i) == Ok(Parsed(ReturnStatement(ts[i], value), j + 1))
  {
  }

  /** `e;` for an expression that starts with neither `let` nor `return`. */
  lemma ExpressionStatementSteps(ts: seq<Token>, i: nat, e: Expression, j: nat)
    requires InStream(ts, i) && ts[i].kind != Let && ts[i].kind != Return
    requires ParseExpression(ts, i, LOWEST) == Ok(Parsed(e, j))
    requires j + 1 < |ts| && ts[j + 1].kind == Semicolon
    ensures ParseStatement(ts, i) == Ok(Parsed(ExpressionStatement(ts[i], e), j + 1))
  {
    ExpressionStatementStep(ts, i, e, j);
  }

  /*
   * The forms below finish an expression: its next token closes it, so the
   * loop of `ParseExpression` stops, and the whole parse is the node itself.
   */

  lemma IdentifierClosed(ts: seq<Token>, i: nat)
    requires EofTerminated(ts) && i + 1 < |ts| && ts[i].kind == Ident && Closes(ts[i + 1].kind)
    ensures ParseExpression(ts, i, LOWEST) == Ok(Parsed(Name(ts[i]), i))
  {
    IdentifierStart(ts, i, LOWEST);
    Closed(ts, i, i + 1, LOWEST, Name(ts[i]));
  }

  lemma IntegerClosed(ts: seq<Token>, i: nat)
    requires EofTerminated(ts) && i + 1 < |ts| && ts[i].kind == Int && ParseInt64(ts[i].literal).Some?
    requires Closes(ts[i + 1].kind)
    ensures ParseExpression(ts, i, LOWEST) == Ok(Parsed(IntegerLiteral(ts[i], ParseInt64(ts[i].literal).value), i))
  {
    Closed(ts, i, i + 1, LOWEST, IntegerLiteral(ts[i], ParseInt64(ts[i].literal).value));
    IntegerAlone(ts, i, LOWEST);
  }

  lemma BooleanClosed(ts: seq<Token>, i: nat)
    requires EofTerminated(ts) && i + 1 < |ts| && (ts[i].kind == True || ts[i].kind == False)
    requires Closes(ts[i + 1].kind)
    ensures ParseExpression(ts, i, LOWEST) == Ok(Parsed(Boolean(ts[i], ts[i].kind == True), i))
  {
    BooleanStart(ts, i, LOWEST);
    Closed(ts, i, i + 1, LOWEST, Boolean(ts[i], ts[i].kind == True));
  }

  /** `( e )` as an operand of an operator of any precedence. */
  lemma OperandClosed(ts: seq<Token>, i: nat, precedence: int, e: Expression, last: nat)
    requires EofTerminated(ts) && i < |ts| && ts[i].kind == LParen
    requires ParseGroupedExpression(ts, i) == Ok(Parsed(e, last))
    requires last + 1 < |ts| && Closes(ts[last + 1].kind) && LOWEST <= precedence
    ensures ParseExpression(ts, i, precedence) == Ok(Parsed(e, last))
  {
    GroupStart(ts, i, precedence, e, last);
    Closed(ts, last, last + 1, precedence, e);
  }

  lemma PrefixClosed(ts: seq<Token>, i: nat, right: Expression, last: nat)
    requires EofTerminated(ts) && i + 1 < |ts| && (ts[i].kind == Bang || ts[i].kind == Minus)
    requires ParseExpression(ts, i + 1, PREFIX) == Ok(Parsed(right, last))
    requires last + 1 < |ts| && Closes(ts[last + 1].kind)
    ensures ParseExpression(ts, i, LOWEST) == Ok(Parsed(PrefixExpression(ts[i], ts[i].literal, right), last))
  {
    PrefixSteps(ts, i, LOWEST, right, last);
    Closed(ts, last, last + 1, LOWEST, PrefixExpression(ts[i], ts[i].literal, right));
  }

  /** `( left ) op ( right )`, where the left group ends at `a` and the operator follows it. */
  lemma InfixClosed(ts: seq<Token>, i: nat, left: Expression, a: nat, right: Expression, last: nat)
    requires EofTerminated(ts) && i < |ts| && ts[i].kind == LParen
    requires ParseGroupedExpression(ts, i) == Ok(Parsed(left, a))
    requires a + 2 < |ts| && IsBinaryOperator(ts[a + 1].kind)
    requires ParseExpression(ts, a + 2, PrecedenceOf(ts[a + 1].kind)) == Ok(Parsed(right, last))
    requires last + 1 < |ts| && Closes(ts[last + 1].kind)
    ensures ParseExpression(ts, i, LOWEST) == Ok(Parsed(InfixExpression(ts[a + 1], left, ts[a + 1].literal, right), last))
  {
    GroupStart(ts, i, LOWEST, left, a);
    OperatorSteps(ts, a, LOWEST, left, right, last);
    Closed(ts, last, last + 1, LOWEST, InfixExpression(ts[a + 1], left, ts[a + 1].literal, right));
  }

  /** `( callee ) ( arguments )`, where the callee's group ends at `a`; the node keeps the final `)`. */
  lemma CallClosed(ts: seq<Token>, i: nat, callee: Expression, a: nat, arguments: seq<Expression>, last: nat)
    requires EofTerminated(ts) && i < |ts| && ts[i].kind == LParen
    requires ParseGroupedExpression(ts, i) == Ok(Parsed(callee, a))
    requires a + 1 < |ts| && ts[a + 1].kind == LParen
    requires ParseCallArguments(ts, a + 1) == Ok(Parsed(arguments, last))
    requires last + 1 < |ts| && Closes(ts[last + 1].kind)
    ensures ParseExpression(ts, i, LOWEST) == Ok(Parsed(CallExpression(ts[last], callee, arguments), last))
  {
    GroupStart(ts, i, LOWEST, callee, a);
    CallSteps(ts, a, LOWEST, callee, arguments, last);
    Closed(ts, last, last + 1, LOWEST, CallExpression(ts[last], callee, arguments));
  }

  lemma IfClosed(ts: seq<Token>, i: nat, condition: Expression, c: nat,
                 consequence: BlockStatement, b: nat, alternative: Option<BlockStatement>, last: nat)
    requires EofTerminated(ts) && i + 2 < |ts| && ts[i].kind == If && ts[i + 1].kind == LParen
    requires ParseExpression(ts, i + 2, LOWEST) == Ok(Parsed(condition, c))
    requires c + 2 < |ts| && ts[c + 1].kind == RParen && ts[c + 2].kind == LBrace
    requires ParseBlockStatement(ts, c + 2) == Ok(Parsed(consequence, b))
    requires ParseElse(ts, b) == Ok(Parsed(alternative, last))
    requires last + 1 < |ts| && Closes(ts[last + 1].kind)
    ensures ParseExpression(ts, i, LOWEST) == Ok(Parsed(IfExpression(ts[i], condition, consequence, alternative), last))
  {
    IfSteps(ts, i, LOWEST, condition, c, consequence, b, alternative, last);
    Closed(ts, last, last + 1, LOWEST, IfExpression(ts[i], condition, consequence, alternative));
  }

  lemma FunctionClosed(ts: seq<Token>, i: nat, parameters: seq<Identifier>, r: nat, body: BlockStatement, last: nat)
    requires EofTerminated(ts) && i + 1 < |ts| && ts[i].kind == Function && ts[i + 1].kind == LParen
    requires ParseFunctionParameters(ts, i + 1) == Ok(Parsed(parameters, r))
    requires r + 1 < |ts| && ts[r + 1].kind == LBrace
    requires ParseBlockStatement(ts, r + 1) == Ok(Parsed(body, last))
    requires last + 1 < |ts| && Closes(ts[last + 1].kind)
    ensures ParseExpression(ts, i, LOWEST) == Ok(Parsed(FunctionLiteral(ts[i], parameters, body), last))
  {
    FunctionSteps(ts, i, LOWEST, parameters, r, body, last);
    Closed(ts, last, last + 1, LOWEST, FunctionLiteral(ts[i], parameters, body));
  }
}
