/**
 * The parser: a cursor over the lexer's tokens with a current and a peek
 * token, and one method per construct of the language.
 *
 * The ghost state ties the cursor to the token stream: `toks` is every
 * token the lexer will hand out, and `idx` the index in it of the current
 * token. Every parse method is proved to return what the function of the
 * same name in `Grammar` returns at the index where the method starts, and
 * to leave the cursor where that function says.
 */
module Parser {
  import opened Tokens
  import opened Results
  import opened Ast
  import opened ParserErrors
  import opened ParserTables
  import opened Strconv
  import opened Lexer
  import Grammar

  /** The zero token: what the current and peek tokens hold before the first advance. */
  const ZeroToken: Token := Token(Blank, [], 0)

  /**
   * The outcome `r` of a parse method is the outcome `s` of the reference
   * function: the same node, with the cursor left at `pos`, or the same error.
   */
  predicate Matches<T(==)>(r: Result<T, ParseError>, s: Result<Grammar.Parsed<T>, ParseError>, pos: int) {
    match s
    case Ok(p) => r == Ok(p.value) && pos == p.pos
    case Err(e) => r == Err(e)
  }

  class Parser {
    const lexer: Lexer
    var curToken: Token
    var peekToken: Token
    var prefixParseFns: map<TokenType, PrefixParseFn>
    var infixParseFns: map<TokenType, InfixParseFn>

    /** The tokens the lexer hands out from the parser's creation on. */
    ghost const toks: seq<Token>
    /** The lexer's position before the call that hands out each token of `toks`. */
    ghost const positions: seq<nat>
    /** The index in `toks` of the current token: -2 and -1 before the two first advances. */
    ghost var idx: int

    /** The token at index `k` of the stream, the zero token before it, its last token after it. */
    ghost function TokAt(k: int): Token
      requires |toks| > 0
    {
      if k < 0 then ZeroToken else if k < |toks| then toks[k] else toks[|toks| - 1]
    }

    /** The index of the current token after one advance. */
    ghost function Next(k: int): int {
      if k + 1 < |toks| then k + 1 else k
    }

    ghost predicate Valid()
      reads this, lexer
    {
      && lexer.Valid()
      && Scanned()
      && -2 <= idx < |toks|
      && (if idx < 0 then curToken == TokAt(idx) && peekToken == TokAt(idx + 1)
          else curToken == toks[idx] && peekToken == Grammar.Peek(toks, idx))
      && (idx + 2 < |toks| ==> lexer.position == positions[idx + 2])
      && Registered()
    }

    /**
     * `toks` ends at its one end-of-input token, and scanning from each
     * position yields the token at that index and the next position.
     */
    ghost predicate Scanned() {
      && EofTerminated(toks)
      && |positions| == |toks|
      && forall k {:trigger Scan(lexer.input, positions[k])} | 0 <= k < |toks| ::
           Scan(lexer.input, positions[k]).0 == toks[k] && (k + 1 < |toks| ==> Scan(lexer.input, positions[k]).1 == positions[k + 1])
    }

    /** Every handler is registered. */
    ghost predicate Registered()
      reads this`prefixParseFns, this`infixParseFns
    {
      prefixParseFns == PrefixParseFns && infixParseFns == InfixParseFns
    }

    /** Valid, and the current token is one the lexer handed out. */
    ghost predicate Loaded()
      reads this, lexer
    {
      && Valid()
      && idx >= 0
    }

    /**
     * A parser over the tokens `l` hands out, with every handler
     * registered; no token has been read yet.
     */
    constructor (l: Lexer)
      requires l.Valid()
      ensures lexer == l && toks == TokensFrom(l.input, l.position) && idx == -2
      ensures Valid()
    {
      lexer := l;
      toks := TokensFrom(l.input, l.position);
      positions := PositionsFrom(l.input, l.position);
      idx := -2;
      curToken, peekToken := ZeroToken, ZeroToken;
      var prefix: map<TokenType, PrefixParseFn> := map[];
      prefix := prefix[TokenType.Ident := ParseIdentifierFn];
      prefix := prefix[Int := ParseIntegerLiteralFn];
      prefix := prefix[Bang := ParsePrefixExpressionFn];
      prefix := prefix[Minus := ParsePrefixExpressionFn];
      prefix := prefix[True := ParseBooleanFn];
      prefix := prefix[False := ParseBooleanFn];
      prefix := prefix[LParen := ParseGroupedExpressionFn];
      prefix := prefix[If := ParseIfExpressionFn];
      prefix := prefix[Function := ParseFunctionLiteralFn];
      prefixParseFns := prefix;
      var infix: map<TokenType, InfixParseFn> := map[];
      infix := infix[Plus := ParseInfixExpressionFn];
      infix := infix[Minus := ParseInfixExpressionFn];
      infix := infix[Slash := ParseInfixExpressionFn];
      infix := infix[Asterisk := ParseInfixExpressionFn];
      infix := infix[Eq := ParseInfixExpressionFn];
      infix := infix[NotEq := ParseInfixExpressionFn];
      infix := infix[Lt := ParseInfixExpressionFn];
      infix := infix[Gt := ParseInfixExpressionFn];
      infix := infix[LParen := ParseCallExpressionFn];
      infixParseFns := infix;
      new;
      PositionsStep(l.input, l.position);
    }

    /** The current token's precedence: above the lowest exactly when it has an infix handler. */
    function CurPrecedence(): (p: int)
      reads this, lexer
      requires Valid()
      ensures p > LOWEST <==> curToken.kind in infixParseFns
    {
      PrecedenceOf(curToken.kind)
    }

    /** The peek token's precedence: above the lowest exactly when it has an infix handler. */
    function PeekPrecedence(): (p: int)
      reads this, lexer
      requires Valid()
      ensures p > LOWEST <==> peekToken.kind in infixParseFns
    {
      PrecedenceOf(peekToken.kind)
    }

    /**
     * The peek token becomes the current token, and the lexer is asked for
     * the next peek token, unless the current token is now end-of-input.
     */
    method Advance()
      requires Valid()
      modifies this`curToken, this`peekToken, this`idx, lexer
      ensures Valid() && idx == Next(old(idx))
      ensures old(idx) >= 0 ==> idx == Grammar.Advance(toks, old(idx))
    {
      curToken := peekToken;
      if curToken.kind == Eof {
        idx := Next(idx);
        return;
      }
      var tok := lexer.NextToken();
      peekToken := tok;
      idx := idx + 1;
    }

    /** Reads the first two tokens. */
    method Preload()
      requires Valid()
      modifies this`curToken, this`peekToken, this`idx, lexer
      ensures Valid() && idx == Next(Next(old(idx)))
      ensures old(idx) == -2 ==> idx == 0
    {
      Advance();
      Advance();
    }

    /**
     * Advances when the peek token has kind `t`; otherwise fails, naming
     * `t` and the kind of the peek token, and leaves the parser as it was.
     */
    method ExpectPeek(t: TokenType) returns (r: Outcome<ParseError>)
      requires Loaded()
      modifies this`curToken, this`peekToken, this`idx, lexer
      ensures Loaded()
      ensures Grammar.ExpectPeek(toks, old(idx), t) == if r.Pass? then Ok(idx as nat) else Err(r.error)
      ensures r.Fail? ==> idx == old(idx)
    {
      if peekToken.kind == t {
        Advance();
        r := Pass;
      } else {
        r := Fail(UnexpectedToken(peekToken.line, t, peekToken.kind));
      }
    }

    /**
     * Reads the first two tokens, then statements until the current token
     * is end-of-input, stopping at the first error.
     */
    method ParseProgram() returns (r: Result<Program, ParseError>)
      requires Valid()
      modifies this`curToken, this`peekToken, this`idx, lexer
      ensures Valid()
      ensures r == Grammar.ParseProgram(toks, Next(Next(old(idx))))
    {
      Preload();
      ghost var goal := Grammar.ParseStatements(toks, idx, []);
      var statements := [];
      while curToken.kind != Eof
        invariant Loaded()
        invariant Grammar.ParseStatements(toks, idx, statements) == goal
        decreases |toks| - idx
      {
        var statement :- ParseStatement();
        statements := statements + [statement];
        Advance();
      }
      return Ok(Program(statements));
    }

    method ParseStatement() returns (r: Result<Statement, ParseError>)
      requires Loaded()
      modifies this`curToken, this`peekToken, this`idx, lexer
      ensures Loaded() && Matches(r, Grammar.ParseStatement(toks, old(idx)), idx)
      decreases |toks| - idx, 5
    {
      if curToken.kind == Let {
        r := ParseLetStatement();
      } else if curToken.kind == Return {
        r := ParseReturnStatement();
      } else {
        r := ParseExpressionStatement();
      }
    }

    method ParseLetStatement() returns (r: Result<Statement, ParseError>)
      requires Loaded()
      modifies this`curToken, this`peekToken, this`idx, lexer
      ensures Loaded() && Matches(r, Grammar.ParseLetStatement(toks, old(idx)), idx)
      decreases |toks| - idx, 4
    {
      var token := curToken;
      :- ExpectPeek(TokenType.Ident);
      var name := Identifier(curToken, curToken.literal);
      :- ExpectPeek(Assign);
      Advance();
      var value :- ParseExpression(LOWEST);
      if peekToken.kind == Semicolon {
        Advance();
      }
      return Ok(LetStatement(token, name, value));
    }

    method ParseReturnStatement() returns (r: Result<Statement, ParseError>)
      requires Loaded()
      modifies this`curToken, this`peekToken, this`idx, lexer
      ensures Loaded() && Matches(r, Grammar.ParseReturnStatement(toks, old(idx)), idx)
      decreases |toks| - idx, 4
    {
      var token := curToken;
      Advance();
      var value :- ParseExpression(LOWEST);
      if peekToken.kind == Semicolon {
        Advance();
      }
      return Ok(ReturnStatement(token, value));
    }

    method ParseExpressionStatement() returns (r: Result<Statement, ParseError>)
      requires Loaded()
      modifies this`curToken, this`peekToken, this`idx, lexer
      ensures Loaded() && Matches(r, Grammar.ParseExpressionStatement(toks, old(idx)), idx)
      decreases |toks| - idx, 4
    {
      var token := curToken;
      var expression :- ParseExpression(LOWEST);
      if peekToken.kind == Semicolon {
        Advance();
      }
      return Ok(ExpressionStatement(token, expression));
    }

    /**
     * The prefix handler of the current token, then, while the peek token
     * is not a semicolon and binds tighter than `precedence`, its infix
     * handler applied to the expression so far.
     */
    method ParseExpression(precedence: int) returns (r: Result<Expression, ParseError>)
      requires Loaded()
      modifies this`curToken, this`peekToken, this`idx, lexer
      ensures Loaded() && Matches(r, Grammar.ParseExpression(toks, old(idx), precedence), idx)
      decreases |toks| - idx, 3
    {
      TablesAgree(curToken.kind);
      if curToken.kind !in prefixParseFns {
        return Err(NoPrefixParseFn(curToken.line, curToken.kind));
      }
      var left :- CallPrefix(prefixParseFns[curToken.kind]);
      ghost var goal := Grammar.InfixLoop(toks, idx, precedence, left);
      while peekToken.kind != Semicolon && precedence < PeekPrecedence()
        invariant Loaded() && old(idx) <= idx
        invariant Grammar.InfixLoop(toks, idx, precedence, left) == goal
        decreases |toks| - idx
      {
        TablesAgree(peekToken.kind);
        if peekToken.kind !in infixParseFns {
          return Ok(left);
        }
        var infix := infixParseFns[peekToken.kind];
        Advance();
        left :- CallInfix(infix, left);
      }
      return Ok(left);
    }

    /** Calls the prefix handler `fn`, the one registered for the current token's kind. */
    method CallPrefix(fn: PrefixParseFn) returns (r: Result<Expression, ParseError>)
      requires Loaded() && PrefixFnOf(curToken.kind) == Some(fn)
      modifies this`curToken, this`peekToken, this`idx, lexer
      ensures Loaded() && Matches(r, Grammar.CallPrefix(toks, old(idx), fn), idx)
      decreases |toks| - idx, 2
    {
      match fn {
        case ParseIdentifierFn => r := ParseIdentifier();
        case ParseIntegerLiteralFn => r := ParseIntegerLiteral();
        case ParsePrefixExpressionFn => r := ParsePrefixExpression();
        case ParseBooleanFn => r := ParseBoolean();
        case ParseGroupedExpressionFn => r := ParseGroupedExpression();
        case ParseIfExpressionFn => r := ParseIfExpression();
        case ParseFunctionLiteralFn => r := ParseFunctionLiteral();
      }
    }

    /** Calls the infix handler `fn`, the one registered for the current token's kind, on `left`. */
    method CallInfix(fn: InfixParseFn, left: Expression) returns (r: Result<Expression, ParseError>)
      requires Loaded() && InfixFnOf(curToken.kind) == Some(fn)
      modifies this`curToken, this`peekToken, this`idx, lexer
      ensures Loaded() && Matches(r, Grammar.CallInfix(toks, old(idx), fn, left), idx)
      decreases |toks| - idx, 2
    {
      match fn {
        case ParseInfixExpressionFn => r := ParseInfixExpression(left);
        case ParseCallExpressionFn => r := ParseCallExpression(left);
      }
    }

    method ParseBoolean() returns (r: Result<Expression, ParseError>)
      requires Loaded()
      ensures Matches(r, Grammar.ParseBoolean(toks, idx), idx)
    {
      return Ok(Boolean(curToken, curToken.kind == True));
    }

    method ParseIdentifier() returns (r: Result<Expression, ParseError>)
      requires Loaded()
      ensures Matches(r, Grammar.ParseIdentifier(toks, idx), idx)
    {
      return Ok(IdentifierExpression(Identifier(curToken, curToken.literal)));
    }

    method ParseIntegerLiteral() returns (r: Result<Expression, ParseError>)
      requires Loaded()
      ensures Matches(r, Grammar.ParseIntegerLiteral(toks, idx), idx)
    {
      var value := ParseInt64(curToken.literal);
      if value.None? {
        return Err(Integer(curToken.line, curToken.literal));
      }
      return Ok(IntegerLiteral(curToken, value.value));
    }

    method ParsePrefixExpression() returns (r: Result<Expression, ParseError>)
      requires Loaded() && PrefixFnOf(curToken.kind) == Some(ParsePrefixExpressionFn)
      modifies this`curToken, this`peekToken, this`idx, lexer
      ensures Loaded() && Matches(r, Grammar.ParsePrefixExpression(toks, old(idx)), idx)
      decreases |toks| - idx, 1
    {
      var token := curToken;
      Advance();
      var right :- ParseExpression(PREFIX);
      return Ok(PrefixExpression(token, token.literal, right));
    }

    method ParseInfixExpression(left: Expression) returns (r: Result<Expression, ParseError>)
      requires Loaded() && IsBinaryOperator(curToken.kind)
      modifies this`curToken, this`peekToken, this`idx, lexer
      ensures Loaded() && Matches(r, Grammar.ParseInfixExpression(toks, old(idx), left), idx)
      decreases |toks| - idx, 1
    {
      var token := curToken;
      var precedence := CurPrecedence();
      Advance();
      var right :- ParseExpression(precedence);
      return Ok(InfixExpression(token, left, token.literal, right));
    }

    method ParseGroupedExpression() returns (r: Result<Expression, ParseError>)
      requires Loaded() && PrefixFnOf(curToken.kind) == Some(ParseGroupedExpressionFn)
      modifies this`curToken, this`peekToken, this`idx, lexer
      ensures Loaded() && Matches(r, Grammar.ParseGroupedExpression(toks, old(idx)), idx)
      decreases |toks| - idx, 1
    {
      Advance();
      var expression :- ParseExpression(LOWEST);
      :- ExpectPeek(RParen);
      return Ok(expression);
    }

    method ParseIfExpression() returns (r: Result<Expression, ParseError>)
      requires Loaded()
      modifies this`curToken, this`peekToken, this`idx, lexer
      ensures Loaded() && Matches(r, Grammar.ParseIfExpression(toks, old(idx)), idx)
      decreases |toks| - idx, 1
    {
      var token := curToken;
      :- ExpectPeek(LParen);
      Advance();
      var condition :- ParseExpression(LOWEST);
      :- ExpectPeek(RParen);
      :- ExpectPeek(LBrace);
      var consequence :- ParseBlockStatement();
      var alternative :- ParseElse();
      return Ok(IfExpression(token, condition, consequence, alternative));
    }

    /** The optional `else <block>` of an `if`, read when the peek token is `else`. */
    method ParseElse() returns (r: Result<Option<BlockStatement>, ParseError>)
      requires Loaded()
      modifies this`curToken, this`peekToken, this`idx, lexer
      ensures Loaded() && Matches(r, Grammar.ParseElse(toks, old(idx)), idx)
      decreases |toks| - idx, 1
    {
      if peekToken.kind != Else {
        return Ok(None);
      }
      Advance();
      :- ExpectPeek(LBrace);
      var alternative :- ParseBlockStatement();
      return Ok(Some(alternative));
    }

    method ParseBlockStatement() returns (r: Result<BlockStatement, ParseError>)
      requires Loaded() && curToken.kind == LBrace
      modifies this`curToken, this`peekToken, this`idx, lexer
      ensures Loaded() && Matches(r, Grammar.ParseBlockStatement(toks, old(idx)), idx)
      decreases |toks| - idx, 1
    {
      var token := curToken;
      Advance();
      ghost var goal := Grammar.BlockLoop(toks, idx, []);
      var statements := [];
      while curToken.kind != RBrace && curToken.kind != Eof
        invariant Loaded() && old(idx) < idx
        invariant Grammar.BlockLoop(toks, idx, statements) == goal
        decreases |toks| - idx
      {
        var statement :- ParseStatement();
        statements := statements + [statement];
        Advance();
      }
      return Ok(BlockStatement(token, statements));
    }

    method ParseFunctionLiteral() returns (r: Result<Expression, ParseError>)
      requires Loaded()
      modifies this`curToken, this`peekToken, this`idx, lexer
      ensures Loaded() && Matches(r, Grammar.ParseFunctionLiteral(toks, old(idx)), idx)
      decreases |toks| - idx, 1
    {
      var token := curToken;
      :- ExpectPeek(LParen);
      var parameters :- ParseFunctionParameters();
      :- ExpectPeek(LBrace);
      var body :- ParseBlockStatement();
      return Ok(FunctionLiteral(token, parameters, body));
    }

    method ParseFunctionParameters() returns (r: Result<seq<Identifier>, ParseError>)
      requires Loaded()
      modifies this`curToken, this`peekToken, this`idx, lexer
      ensures Loaded() && Matches(r, Grammar.ParseFunctionParameters(toks, old(idx)), idx)
    {
      var identifiers := [];
      if peekToken.kind == RParen {
        Advance();
        return Ok(identifiers);
      }
      Advance();
      identifiers := [Identifier(curToken, curToken.literal)];
      ghost var goal := Grammar.ParamsLoop(toks, idx, identifiers);
      while peekToken.kind == Comma
        invariant Loaded()
        invariant forall p | p in identifiers :: p.value == p.token.literal
        invariant Grammar.ParamsLoop(toks, idx, identifiers) == goal
        decreases |toks| - idx
      {
        Advance();
        Advance();
        identifiers := identifiers + [Identifier(curToken, curToken.literal)];
      }
      :- ExpectPeek(RParen);
      return Ok(identifiers);
    }

    method ParseCallExpression(callee: Expression) returns (r: Result<Expression, ParseError>)
      requires Loaded() && curToken.kind == LParen
      modifies this`curToken, this`peekToken, this`idx, lexer
      ensures Loaded() && Matches(r, Grammar.ParseCallExpression(toks, old(idx), callee), idx)
      decreases |toks| - idx, 1
    {
      var arguments :- ParseCallArguments();
      return Ok(CallExpression(curToken, callee, arguments));
    }

    method ParseCallArguments() returns (r: Result<seq<Expression>, ParseError>)
      requires Loaded() && curToken.kind == LParen
      modifies this`curToken, this`peekToken, this`idx, lexer
      ensures Loaded() && Matches(r, Grammar.ParseCallArguments(toks, old(idx)), idx)
      decreases |toks| - idx, 0
    {
      var arguments := [];
      if peekToken.kind == RParen {
        Advance();
        return Ok(arguments);
      }
      Advance();
      var argument :- ParseExpression(LOWEST);
      arguments := [argument];
      ghost var goal := Grammar.ArgsLoop(toks, idx, arguments);
      while peekToken.kind == Comma
        invariant Loaded() && old(idx) < idx
        invariant Grammar.ArgsLoop(toks, idx, arguments) == goal
        decreases |toks| - idx
      {
        Advance();
        Advance();
        argument :- ParseExpression(LOWEST);
        arguments := arguments + [argument];
      }
      :- ExpectPeek(RParen);
      return Ok(arguments);
    }
  }
}
