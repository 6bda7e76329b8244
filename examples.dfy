/**
 * Whole inputs, from bytes to the program the parser returns: what the
 * lexer and the parser together make of a few short texts.
 */
module Examples {
  import opened Tokens
  import opened Results
  import opened Ast
  import opened ParserErrors
  import opened ParserTables
  import opened Strconv
  import opened Lexer
  import opened LexerLaws
  import opened Grammar
  import opened GrammarLaws

  /** The program the parser builds from the whole of `input`. */
  function Parse(input: Bytes): Result<Program, ParseError> {
    ParseProgram(TokensFrom(input, 0), 0)
  }

  /** The end of the input yields end-of-input. */
  lemma EndStep(input: Bytes, p: nat)
    requires p >= |input|
    ensures Scan(input, p) == (Token(Eof, [], 0), p + 1)
  {
    assert RunEnd(input, p, IsWhitespace) == p;
  }

  /** `5` lexes to an integer token, then end-of-input. */
  lemma FiveTokens()
    ensures TokensFrom(['5' as byte], 0) == [Token(Int, ['5' as byte], 0), Token(Eof, [], 0)]
  {
    var input := ['5' as byte];
    assert RunEnd(input, 0, IsWhitespace) == 0;
    NumberStart(input, 0);
    assert RunEnd(input, 0, IsDigit) == 1;
    assert input[0..1] == input;
    EndStep(input, 1);
  }

  /** `5;` lexes to an integer token, a semicolon, then end-of-input. */
  lemma FiveSemicolonTokens()
    ensures TokensFrom(['5' as byte, ';' as byte], 0)
      == [Token(Int, ['5' as byte], 0), Token(Semicolon, [';' as byte], 0), Token(Eof, [], 0)]
  {
    var input := ['5' as byte, ';' as byte];
    assert RunEnd(input, 0, IsWhitespace) == 0;
    NumberStart(input, 0);
    assert RunEnd(input, 0, IsDigit) == 1;
    assert input[0..1] == ['5' as byte];
    assert RunEnd(input, 1, IsWhitespace) == 1;
    OneByteTokens(input, 1);
    assert Scan(input, 1) == (Token(Semicolon, [';' as byte], 0), 2);
    EndStep(input, 2);
    assert TokensFrom(input, 2) == [Token(Eof, [], 0)];
  }

  lemma FiveValue()
    ensures ParseInt64(['5' as byte]) == Some(5)
  {
    var s := ['5' as byte];
    assert DigitsOf(s, 10);
    assert s[..0] == [];
    assert Value(s, 10) == 5;
  }

  /** `5` and `5;` are the same program: one expression statement holding the integer 5. */
  lemma Five()
    ensures var five := Token(Int, ['5' as byte], 0);
      var program := Program([ExpressionStatement(five, IntegerLiteral(five, 5))]);
      Parse(['5' as byte]) == Ok(program) && Parse(['5' as byte, ';' as byte]) == Ok(program)
  {
    FiveTokens();
    FiveSemicolonTokens();
    FiveValue();
    TrailingSemicolonIsOptional(Token(Int, ['5' as byte], 0), Token(Semicolon, [';' as byte], 0), Token(Eof, [], 0));
  }

  /** A run of digits that reaches the end of the input ends there. */
  lemma {:induction false} DigitsToTheEnd(input: Bytes, i: nat)
    requires i <= |input| && forall k | i <= k < |input| :: IsDigit(input[k])
    ensures RunEnd(input, i, IsDigit) == |input|
    decreases |input| - i
  {
    if i < |input| {
      DigitsToTheEnd(input, i + 1);
    }
  }

  /** The decimal text of a number lexes to one integer token, then end-of-input. */
  lemma DecimalTokens(n: nat)
    ensures TokensFrom(Decimal(n), 0) == [Token(Int, Decimal(n), 0), Token(Eof, [], 0)]
  {
    var input := Decimal(n);
    assert RunEnd(input, 0, IsWhitespace) == 0;
    NumberStart(input, 0);
    DigitsToTheEnd(input, 0);
    assert input[0..|input|] == input;
    EndStep(input, |input|);
  }

  /** A number up to 2^63 - 1, written out in decimal, is a program of one integer statement. */
  lemma DecimalProgram(n: nat)
    requires n <= MaxInt64
    ensures var t := Token(Int, Decimal(n), 0);
      Parse(Decimal(n)) == Ok(Program([ExpressionStatement(t, IntegerLiteral(t, n))]))
  {
    var t := Token(Int, Decimal(n), 0);
    var ts := [t, Token(Eof, [], 0)];
    DecimalTokens(n);
    DecimalRoundTrip(n);
    IntegerAlone(ts, 0, LOWEST);
    ExpressionStatementStep(ts, 0, IntegerLiteral(t, n), 0);
    OneStatementProgram(ts, 0, ExpressionStatement(t, IntegerLiteral(t, n)), 0);
  }

  /** A larger number, written out in decimal, is an integer error carrying its text. */
  lemma DecimalTooLarge(n: nat)
    requires n > MaxInt64
    ensures Parse(Decimal(n)) == Err(Integer(0, Decimal(n)))
  {
    var ts := [Token(Int, Decimal(n), 0), Token(Eof, [], 0)];
    DecimalTokens(n);
    DecimalOutOfRange(n);
    IntegerOutOfRange(ts, 0, LOWEST);
    ExpressionStatementFails(ts, 0, Integer(0, Decimal(n)));
    FirstStatementFails(ts, 0, Integer(0, Decimal(n)));
  }

  /** `asd_1` lexes to the identifier `asd_`, the integer `1`, then end-of-input. */
  lemma IdentifierThenDigitTokens()
    ensures var input := ['a' as byte, 's' as byte, 'd' as byte, '_' as byte, '1' as byte];
      TokensFrom(input, 0) == [Token(Ident, input[..4], 0), Token(Int, input[4..], 0), Token(Eof, [], 0)]
  {
    var input := ['a' as byte, 's' as byte, 'd' as byte, '_' as byte, '1' as byte];
    assert RunEnd(input, 0, IsWhitespace) == 0;
    WordStart(input, 0);
    assert RunEnd(input, 4, IsLetter) == 4;
    assert RunEnd(input, 3, IsLetter) == 4;
    assert RunEnd(input, 2, IsLetter) == 4;
    assert RunEnd(input, 1, IsLetter) == 4;
    assert RunEnd(input, 0, IsLetter) == 4;
    assert input[0..4] == input[..4];
    assert LookupIdent(input[..4]) == Ident;
    assert RunEnd(input, 4, IsWhitespace) == 4;
    NumberStart(input, 4);
    assert RunEnd(input, 4, IsDigit) == 5;
    assert input[4..5] == input[4..];
    EndStep(input, 5);
  }

  /** An identifier before any token that binds no operand is a statement of its own. */
  lemma IdentifierStatement(ts: seq<Token>, i: nat)
    requires InStream(ts, i) && ts[i].kind == Ident && Peek(ts, i).kind != Semicolon
    requires ParserTables.PrecedenceOf(Peek(ts, i).kind) == LOWEST
    ensures ParseStatement(ts, i) == Ok(Parsed(ExpressionStatement(ts[i], Name(ts[i])), i))
  {
    IdentifierAlone(ts, i, LOWEST);
    ExpressionStatementStep(ts, i, Name(ts[i]), i);
  }

  /** An integer just before the end of the input is the last statement of the program. */
  lemma FinalInteger(ts: seq<Token>, i: nat)
    requires InStream(ts, i) && ts[i].kind == Int && ParseInt64(ts[i].literal).Some? && ts[i + 1].kind == Eof
    ensures ParseProgram(ts, i) == Ok(Program([ExpressionStatement(ts[i], IntegerLiteral(ts[i], ParseInt64(ts[i].literal).value))]))
  {
    var value := IntegerLiteral(ts[i], ParseInt64(ts[i].literal).value);
    IntegerAlone(ts, i, LOWEST);
    ExpressionStatementStep(ts, i, value, i);
    OneStatementProgram(ts, i, ExpressionStatement(ts[i], value), i);
  }

  /** An identifier directly followed by an integer: two statements, neither needing a semicolon. */
  lemma IdentifierThenInteger(a: Token, n: Token, eof: Token)
    requires a.kind == Ident && n.kind == Int && ParseInt64(n.literal).Some? && eof.kind == Eof
    ensures ParseProgram([a, n, eof], 0) == Ok(Program([
      ExpressionStatement(a, Name(a)),
      ExpressionStatement(n, IntegerLiteral(n, ParseInt64(n.literal).value))]))
  {
    var ts := [a, n, eof];
    assert EofTerminated(ts);
    IdentifierStatement(ts, 0);
    FinalInteger(ts, 1);
    ProgramIsFirstStatementThenRest(ts, 0);
    var first := ExpressionStatement(a, Name(a));
    var second := ExpressionStatement(n, IntegerLiteral(n, ParseInt64(n.literal).value));
    assert [first] + [second] == [first, second];
  }

  /**
   * `asd_1` is two statements, the identifier `asd_` and the integer 1:
   * a digit ends an identifier.
   */
  lemma IdentifierThenDigit()
    ensures var input := ['a' as byte, 's' as byte, 'd' as byte, '_' as byte, '1' as byte];
      var asd, one := Token(Ident, input[..4], 0), Token(Int, input[4..], 0);
      Parse(input) == Ok(Program([
        ExpressionStatement(asd, IdentifierExpression(Identifier(asd, input[..4]))),
        ExpressionStatement(one, IntegerLiteral(one, 1))]))
  {
    var input := ['a' as byte, 's' as byte, 'd' as byte, '_' as byte, '1' as byte];
    IdentifierThenDigitTokens();
    assert ParseInt64(input[4..]) == Some(1) by {
      var s := input[4..];
      assert DigitsOf(s, 10) && s[..0] == [];
      assert Value(s, 10) == 1;
    }
    IdentifierThenInteger(Token(Ident, input[..4], 0), Token(Int, input[4..], 0), Token(Eof, [], 0));
  }

  /**
   * `@` is an illegal token, which the lexer hands out without failing;
   * the parser then finds no prefix handler for it.
   */
  lemma IllegalByte()
    ensures Parse(['@' as byte]) == Err(NoPrefixParseFn(0, Illegal))
  {
    var input := ['@' as byte];
    assert RunEnd(input, 0, IsWhitespace) == 0;
    assert '@' as byte !in OneByteKinds;
    OtherBytesAreIllegal(input, 0);
    EndStep(input, 1);
    var ts := [Token(Illegal, input, 0), Token(Eof, [], 0)];
    assert TokensFrom(input, 0) == ts;
    ProgramIsFirstStatementThenRest(ts, 0);
  }
}
