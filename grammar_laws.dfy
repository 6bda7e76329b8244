/**
 * How the parser groups operators, and what its tables guarantee, stated
 * for every token of the right kinds.
 */
module GrammarLaws {
  import opened Tokens
  import opened Results
  import opened Ast
  import opened ParserErrors
  import opened ParserTables
  import opened Strconv
  import opened Grammar

  /** The node the parser builds for an identifier token. */
  function Name(t: Token): Expression {
    IdentifierExpression(Identifier(t, t.literal))
  }

  /** The loop of `ParseExpression` stops at once when the peek token does not bind tighter than `precedence`. */
  lemma LoopStops(ts: seq<Token>, i: nat, precedence: int, left: Expression)
    requires InStream(ts, i) && PrecedenceOf(Peek(ts, i).kind) <= precedence
    ensures InfixLoop(ts, i, precedence, left) == Ok(Parsed(left, i))
  {
  }

  /**
   * One climbing step over a binary operator that binds tighter than
   * `precedence`: its right operand is an expression parsed at the
   * operator's own level, and the loop goes on with the operator node.
   */
  lemma OperatorStep(ts: seq<Token>, i: nat, precedence: int, left: Expression)
    requires InStream(ts, i) && IsBinaryOperator(Peek(ts, i).kind) && precedence < PrecedenceOf(Peek(ts, i).kind)
    ensures i + 2 < |ts|
    ensures InfixLoop(ts, i, precedence, left) ==
      var o := ts[i + 1];
      var right :- ParseExpression(ts, i + 2, PrecedenceOf(o.kind));
      InfixLoop(ts, right.pos, precedence, InfixExpression(o, left, o.literal, right.value))
  {
    assert ts[i].kind != Eof && ts[i + 1].kind != Eof;
    var o := ts[i + 1];
    var right := ParseExpression(ts, i + 2, PrecedenceOf(o.kind));
    if right.Ok? {
      assert CallInfix(ts, i + 1, ParseInfixExpressionFn, left)
        == Ok(Parsed(InfixExpression(o, left, o.literal, right.value.value), right.value.pos));
    } else {
      assert CallInfix(ts, i + 1, ParseInfixExpressionFn, left) == Err(right.error);
    }
  }

  /**
   * One climbing step over a `(` when `precedence` is below the call
   * level: the arguments follow, and the call node takes the closing `)`
   * as its token.
   */
  lemma CallStep(ts: seq<Token>, i: nat, precedence: int, callee: Expression)
    requires InStream(ts, i) && Peek(ts, i).kind == LParen && precedence < CALL
    ensures i + 1 < |ts|
    ensures InfixLoop(ts, i, precedence, callee) ==
      var arguments :- ParseCallArguments(ts, i + 1);
      InfixLoop(ts, arguments.pos, precedence, CallExpression(ts[arguments.pos], callee, arguments.value))
  {
    assert ts[i].kind != Eof;
    var arguments := ParseCallArguments(ts, i + 1);
    if arguments.Ok? {
      var pos := arguments.value.pos;
      assert CallInfix(ts, i + 1, ParseCallExpressionFn, callee)
        == Ok(Parsed(CallExpression(ts[pos], callee, arguments.value.value), pos));
    } else {
      assert CallInfix(ts, i + 1, ParseCallExpressionFn, callee) == Err(arguments.error);
    }
  }

  /** An expression that starts with an identifier: the loop, from that identifier. */
  lemma IdentifierStart(ts: seq<Token>, i: nat, precedence: int)
    requires InStream(ts, i) && ts[i].kind == Ident
    ensures ParseExpression(ts, i, precedence) == InfixLoop(ts, i, precedence, Name(ts[i]))
  {
    assert CallPrefix(ts, i, ParseIdentifierFn) == Ok(Parsed(Name(ts[i]), i));
  }

  /**
   * An expression that starts with `!` or `-`: the operand is parsed at
   * the prefix level, and the loop goes on with the prefix node.
   */
  lemma PrefixStart(ts: seq<Token>, i: nat, precedence: int)
    requires InStream(ts, i) && (ts[i].kind == Bang || ts[i].kind == Minus)
    ensures i + 1 < |ts|
    ensures ParseExpression(ts, i, precedence) ==
      var right :- ParseExpression(ts, i + 1, PREFIX);
      InfixLoop(ts, right.pos, precedence, PrefixExpression(ts[i], ts[i].literal, right.value))
  {
    var right := ParseExpression(ts, i + 1, PREFIX);
    if right.Ok? {
      assert CallPrefix(ts, i, ParsePrefixExpressionFn)
        == Ok(Parsed(PrefixExpression(ts[i], ts[i].literal, right.value.value), right.value.pos));
    } else {
      assert CallPrefix(ts, i, ParsePrefixExpressionFn) == Err(right.error);
    }
  }

  /** An integer literal in range followed by a token that does not bind tighter than `precedence` is that integer alone. */
  lemma IntegerAlone(ts: seq<Token>, i: nat, precedence: int)
    requires InStream(ts, i) && ts[i].kind == Int && ParseInt64(ts[i].literal).Some?
    requires PrecedenceOf(Peek(ts, i).kind) <= precedence
    ensures ParseExpression(ts, i, precedence) == Ok(Parsed(IntegerLiteral(ts[i], ParseInt64(ts[i].literal).value), i))
  {
    var e := IntegerLiteral(ts[i], ParseInt64(ts[i].literal).value);
    assert CallPrefix(ts, i, ParseIntegerLiteralFn) == Ok(Parsed(e, i));
    LoopStops(ts, i, precedence, e);
  }

  /** An integer literal out of the 64-bit range is an integer error carrying the literal, whatever follows it. */
  lemma IntegerOutOfRange(ts: seq<Token>, i: nat, precedence: int)
    requires InStream(ts, i) && ts[i].kind == Int && ParseInt64(ts[i].literal).None?
    ensures ParseExpression(ts, i, precedence) == Err(Integer(ts[i].line, ts[i].literal))
  {
    assert CallPrefix(ts, i, ParseIntegerLiteralFn) == Err(Integer(ts[i].line, ts[i].literal));
  }

  /** A statement that starts with neither `let` nor `return` fails exactly as its expression does. */
  lemma ExpressionStatementFails(ts: seq<Token>, i: nat, error: ParseError)
    requires InStream(ts, i) && ts[i].kind != Let && ts[i].kind != Return
    requires ParseExpression(ts, i, LOWEST) == Err(error)
    ensures ParseStatement(ts, i) == Err(error)
  {
  }

  /** A statement that starts with neither `let` nor `return` is its expression, then an optional semicolon. */
  lemma ExpressionStatementStep(ts: seq<Token>, i: nat, e: Expression, j: nat)
    requires InStream(ts, i) && ts[i].kind != Let && ts[i].kind != Return
    requires ParseExpression(ts, i, LOWEST) == Ok(Parsed(e, j))
    ensures j < |ts|
    ensures ParseStatement(ts, i) == Ok(Parsed(ExpressionStatement(ts[i], e), SkipSemicolon(ts, j)))
  {
  }

  /** An identifier followed by a token that does not bind tighter than `precedence` is that identifier alone. */
  lemma IdentifierAlone(ts: seq<Token>, i: nat, precedence: int)
    requires InStream(ts, i) && ts[i].kind == Ident && PrecedenceOf(Peek(ts, i).kind) <= precedence
    ensures ParseExpression(ts, i, precedence) == Ok(Parsed(Name(ts[i]), i))
  {
    IdentifierStart(ts, i, precedence);
    LoopStops(ts, i, precedence, Name(ts[i]));
  }

  /**
   * `a o1 b o2 c` where `o1` binds at least as tightly as `o2`: `o1` takes
   * `b`, so operators of one level group to the left.
   */
  lemma {:induction false} OperatorsGroupLeft(a: Token, o1: Token, b: Token, o2: Token, c: Token, eof: Token)
    requires a.kind == Ident && b.kind == Ident && c.kind == Ident && eof.kind == Eof
    requires IsBinaryOperator(o1.kind) && IsBinaryOperator(o2.kind)
    requires PrecedenceOf(o1.kind) >= PrecedenceOf(o2.kind)
    ensures ParseExpression([a, o1, b, o2, c, eof], 0, LOWEST) == Ok(Parsed(
      InfixExpression(o2, InfixExpression(o1, Name(a), o1.literal, Name(b)), o2.literal, Name(c)), 4))
  {
    var ts := [a, o1, b, o2, c, eof];
    assert EofTerminated(ts);
    var left := InfixExpression(o1, Name(a), o1.literal, Name(b));
    var whole := InfixExpression(o2, left, o2.literal, Name(c));
    IdentifierStart(ts, 0, LOWEST);
    OperatorStep(ts, 0, LOWEST, Name(a));
    IdentifierAlone(ts, 2, PrecedenceOf(o1.kind));
    OperatorStep(ts, 2, LOWEST, left);
    IdentifierAlone(ts, 4, PrecedenceOf(o2.kind));
    LoopStops(ts, 4, LOWEST, whole);
  }

  /**
   * `a o1 b o2 c` where `o2` binds tighter than `o1`: `o2` takes `b`, and
   * the result is the right operand of `o1`.
   */
  lemma {:induction false} TighterOperatorGroupsFirst(a: Token, o1: Token, b: Token, o2: Token, c: Token, eof: Token)
    requires a.kind == Ident && b.kind == Ident && c.kind == Ident && eof.kind == Eof
    requires IsBinaryOperator(o1.kind) && IsBinaryOperator(o2.kind)
    requires PrecedenceOf(o1.kind) < PrecedenceOf(o2.kind)
    ensures ParseExpression([a, o1, b, o2, c, eof], 0, LOWEST) == Ok(Parsed(
      InfixExpression(o1, Name(a), o1.literal, InfixExpression(o2, Name(b), o2.literal, Name(c))), 4))
  {
    var ts := [a, o1, b, o2, c, eof];
    assert EofTerminated(ts);
    var p1 := PrecedenceOf(o1.kind);
    var right := InfixExpression(o2, Name(b), o2.literal, Name(c));
    var whole := InfixExpression(o1, Name(a), o1.literal, right);
    IdentifierStart(ts, 0, LOWEST);
    OperatorStep(ts, 0, LOWEST, Name(a));
    IdentifierStart(ts, 2, p1);
    OperatorStep(ts, 2, p1, Name(b));
    IdentifierAlone(ts, 4, PrecedenceOf(o2.kind));
    LoopStops(ts, 4, p1, right);
    LoopStops(ts, 4, LOWEST, whole);
  }

  /** `!a o b` and `-a o b`: the prefix operator takes only `a`, whatever the binary operator. */
  lemma {:induction false} PrefixBindsTighterThanOperators(m: Token, a: Token, o: Token, b: Token, eof: Token)
    requires m.kind == Bang || m.kind == Minus
    requires a.kind == Ident && b.kind == Ident && eof.kind == Eof && IsBinaryOperator(o.kind)
    ensures ParseExpression([m, a, o, b, eof], 0, LOWEST)
      == Ok(Parsed(InfixExpression(o, PrefixExpression(m, m.literal, Name(a)), o.literal, Name(b)), 3))
  {
    var ts := [m, a, o, b, eof];
    assert EofTerminated(ts);
    var negated := PrefixExpression(m, m.literal, Name(a));
    var whole := InfixExpression(o, negated, o.literal, Name(b));
    PrefixStart(ts, 0, LOWEST);
    IdentifierAlone(ts, 1, PREFIX);
    OperatorStep(ts, 1, LOWEST, negated);
    IdentifierAlone(ts, 3, PrecedenceOf(o.kind));
    LoopStops(ts, 3, LOWEST, whole);
  }

  /** `-f(x)` and `!f(x)`: a call binds tighter than a prefix operator, and its token is the `)`. */
  lemma {:induction false} CallBindsTighterThanPrefix(m: Token, f: Token, lp: Token, x: Token, rp: Token, eof: Token)
    requires m.kind == Bang || m.kind == Minus
    requires f.kind == Ident && lp.kind == LParen && x.kind == Ident && rp.kind == RParen && eof.kind == Eof
    ensures ParseExpression([m, f, lp, x, rp, eof], 0, LOWEST)
      == Ok(Parsed(PrefixExpression(m, m.literal, CallExpression(rp, Name(f), [Name(x)])), 4))
  {
    var ts := [m, f, lp, x, rp, eof];
    assert EofTerminated(ts);
    var call := CallExpression(rp, Name(f), [Name(x)]);
    var whole := PrefixExpression(m, m.literal, call);
    PrefixStart(ts, 0, LOWEST);
    IdentifierStart(ts, 1, PREFIX);
    CallStep(ts, 1, PREFIX, Name(f));
    IdentifierAlone(ts, 3, LOWEST);
    assert ParseCallArguments(ts, 2) == Ok(Parsed([Name(x)], 4));
    LoopStops(ts, 4, PREFIX, call);
    LoopStops(ts, 4, LOWEST, whole);
  }

  /**
   * The handlers the parser registers: prefix handlers for nine kinds,
   * infix handlers for the eight binary operators and `(`.
   */
  lemma RegisteredHandlers(k: TokenType)
    ensures k in PrefixParseFns <==> k in {Ident, Int, Bang, Minus, True, False, LParen, If, Function}
    ensures k in InfixParseFns <==> k in {Plus, Minus, Slash, Asterisk, Eq, NotEq, Lt, Gt, LParen}
    ensures IsBinaryOperator(k) <==> k in InfixParseFns && k != LParen
  {
    TablesAgree(k);
  }

  /**
   * The loop of `ParseExpression` never leaves for want of an infix
   * handler: a peek token that binds tighter than a level at or above
   * LOWEST has one.
   */
  lemma NoInfixHandlerExitIsUnreachable(ts: seq<Token>, i: nat, precedence: int, left: Expression)
    requires InStream(ts, i) && precedence >= LOWEST
    requires Peek(ts, i).kind != Semicolon && precedence < PrecedenceOf(Peek(ts, i).kind)
    ensures InfixFnOf(Peek(ts, i).kind).Some?
    ensures InfixLoop(ts, i, precedence, left) ==
      var e :- CallInfix(ts, i + 1, InfixFnOf(Peek(ts, i).kind).value, left);
      InfixLoop(ts, e.pos, precedence, e.value)
  {
  }

  /**
   * `let` must be followed by an identifier and then by `=`; otherwise the
   * error names the kind expected and the kind found at the peek token.
   */
  lemma LetNeedsIdentifierThenAssign(ts: seq<Token>, i: nat)
    requires InStream(ts, i)
    ensures Peek(ts, i).kind != Ident ==> ParseLetStatement(ts, i) == Err(UnexpectedToken(Peek(ts, i).line, Ident, Peek(ts, i).kind))
    ensures Peek(ts, i).kind == Ident ==>
      && i + 1 < |ts|
      && (Peek(ts, i + 1).kind != Assign ==> ParseLetStatement(ts, i) == Err(UnexpectedToken(Peek(ts, i + 1).line, Assign, Peek(ts, i + 1).kind)))
  {
  }

  /** The statements after those in `acc` are the statements parsed on their own, appended. */
  lemma {:induction false} StatementsAccumulate(ts: seq<Token>, i: nat, acc: seq<Statement>)
    requires InStream(ts, i)
    ensures var r, alone := ParseStatements(ts, i, acc), ParseStatements(ts, i, []);
      && (r.Ok? <==> alone.Ok?)
      && (r.Ok? ==> r.value == acc + alone.value)
      && (r.Err? ==> r.error == alone.error)
    decreases |ts| - i
  {
    if ts[i].kind != Eof {
      var s := ParseStatement(ts, i);
      if s.Ok? {
        var j := Advance(ts, s.value.pos);
        StatementsAccumulate(ts, j, acc + [s.value.value]);
        StatementsAccumulate(ts, j, [s.value.value]);
        assert [] + [s.value.value] == [s.value.value];
        var rest := ParseStatements(ts, j, []);
        if rest.Ok? {
          assert acc + [s.value.value] + rest.value == acc + ([s.value.value] + rest.value);
        }
      }
    }
  }

  /**
   * A program is its first statement followed by the program after it:
   * statements come out in source order, and the first error is the
   * result, with nothing parsed after it.
   */
  lemma ProgramIsFirstStatementThenRest(ts: seq<Token>, i: nat)
    requires InStream(ts, i) && ts[i].kind != Eof
    ensures ParseProgram(ts, i) ==
      var s :- ParseStatement(ts, i);
      var rest :- ParseProgram(ts, Advance(ts, s.pos));
      Ok(Program([s.value] + rest.statements))
  {
    var s := ParseStatement(ts, i);
    if s.Ok? {
      assert [] + [s.value.value] == [s.value.value];
      StatementsAccumulate(ts, Advance(ts, s.value.pos), [s.value.value]);
    }
  }

  /** Parsing is fail-fast: a program whose first statement fails is that statement's error. */
  lemma FirstStatementFails(ts: seq<Token>, i: nat, error: ParseError)
    requires InStream(ts, i) && ts[i].kind != Eof && ParseStatement(ts, i) == Err(error)
    ensures ParseProgram(ts, i) == Err(error)
  {
    ProgramIsFirstStatementThenRest(ts, i);
  }

  /** The program at the end of the input has no statements. */
  lemma EmptyProgram(ts: seq<Token>, i: nat)
    requires InStream(ts, i) && ts[i].kind == Eof
    ensures ParseProgram(ts, i) == Ok(Program([]))
  {
  }

  /** A stream that holds one statement is the program of that statement. */
  lemma OneStatementProgram(ts: seq<Token>, i: nat, statement: Statement, j: nat)
    requires InStream(ts, i) && ts[i].kind != Eof
    requires ParseStatement(ts, i) == Ok(Parsed(statement, j)) && ts[Advance(ts, j)].kind == Eof
    ensures ParseProgram(ts, i) == Ok(Program([statement]))
  {
    ProgramIsFirstStatementThenRest(ts, i);
    EmptyProgram(ts, Advance(ts, j));
    assert [statement] + [] == [statement];
  }

  /** `5` and `5;` are the same program: one expression statement holding the integer. */
  lemma TrailingSemicolonIsOptional(t: Token, semicolon: Token, eof: Token)
    requires t.kind == Int && ParseInt64(t.literal).Some? && semicolon.kind == Semicolon && eof.kind == Eof
    ensures var program := Program([ExpressionStatement(t, IntegerLiteral(t, ParseInt64(t.literal).value))]);
      ParseProgram([t, eof], 0) == Ok(program) && ParseProgram([t, semicolon, eof], 0) == Ok(program)
  {
    var statement := ExpressionStatement(t, IntegerLiteral(t, ParseInt64(t.literal).value));
    var with, without := [t, semicolon, eof], [t, eof];
    assert EofTerminated(with) && EofTerminated(without);
    IntegerAlone(without, 0, LOWEST);
    ExpressionStatementStep(without, 0, statement.expression, 0);
    OneStatementProgram(without, 0, statement, 0);
    IntegerAlone(with, 0, LOWEST);
    ExpressionStatementStep(with, 0, statement.expression, 0);
    OneStatementProgram(with, 0, statement, 1);
  }

  /** A block whose closing brace is missing ends at the end of the input, without an error. */
  lemma BlockMayEndAtEof(lb: Token, x: Token, eof: Token)
    requires lb.kind == LBrace && x.kind == Ident && eof.kind == Eof
    ensures ParseBlockStatement([lb, x, eof], 0) == Ok(Parsed(BlockStatement(lb, [ExpressionStatement(x, Name(x))]), 2))
  {
    var ts := [lb, x, eof];
    assert EofTerminated(ts);
    var statement := ExpressionStatement(x, Name(x));
    IdentifierAlone(ts, 1, LOWEST);
    ExpressionStatementStep(ts, 1, Name(x), 1);
    assert BlockLoop(ts, 2, [statement]) == Ok(Parsed([statement], 2));
    assert BlockLoop(ts, 1, []) == Ok(Parsed([statement], 2));
  }
}
