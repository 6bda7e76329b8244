# The front end of the eval interpreter, in Dafny

This project models the lexer and the Pratt parser of the `eval` language
(a small expression language with `let`, `return`, `if`/`else`, function
literals and calls), and proves what they do.

- **Lexer** (`lexer.dfy`, `lexer_laws.dfy`). The class `Lexer.Lexer` has
  the fields `input`, `position`, `readPosition` and `ch`, and one method
  per routine: `ReadChar`, `SkipWhitespace`, `ReadIdentifier`,
  `ReadNumber`, `NextToken`, and the function `PeekChar`.
  - Each method is proved against the functions beside it:
    - `Scan` gives the token one call yields and where the next call starts.
    - `TokensFrom` is the whole stream up to and including end-of-input.
  - `lexer_laws.dfy` states the token rules over `Scan`: two-byte
    operators, one-byte tokens, whitespace, longest runs, illegal bytes, and
    end-of-input repeating.
- **Tokens** (`token.dfy`). Token kinds, the token record and the keyword
  lookup `LookupIdent`.
- **Parser tables** (`parser_tables.dfy`).
  - The precedence levels and the precedence table.
  - The two handler tables, as constant maps, each with an equivalent case
    analysis proved to agree with it.
- **Grammar** (`grammar.dfy`). The parser as pure functions over the token
  stream and the index of the current token, one function per parse
  routine.
  - Every function returns the node together with the index where the
    routine leaves the current token, or the first error.
  - Integer literals go through `Strconv.ParseInt64`, which follows Go's
    base-0 `strconv.ParseInt` on digit strings: a leading `0` means octal,
    and the value must fit in 64 bits.
- **Parser** (`parser.dfy`). The class `Parser.Parser` holds `curToken`,
  `peekToken`, the handler maps and the lexer it pulls from.
  - Its methods advance the cursor step by step and loop as the source does.
  - Each one is proved to return what the `Grammar` function of the same
    name returns at the index where the method starts, and to leave the
    cursor where that function says.
- **Laws** (`grammar_laws.dfy`, `grammar_steps.dfy`). The parser's promises,
  stated over `Grammar`:
  - handler sets;
  - left associativity and precedence;
  - prefix and call binding;
  - `let` errors;
  - fail-fast programs;
  - optional semicolons;
  - blocks that end at end-of-input.
- **Round trip** (`roundtrip.dfy`). Every well-formed tree (`WfProgram`),
  printed back as tokens with each operand in parentheses, parses to the
  same tree.
- **Examples** (`examples.dfy`). Whole inputs proved to lex and parse to
  the trees the repository's tests expect, and a few more.

Where the code and its tests disagree, the model follows the code:

- `asd_1` lexes to the identifier `asd_` followed by the integer `1`,
  because a digit is not a letter. `Examples.IdentifierThenDigit` proves
  this.
- `@` lexes to an `ILLEGAL` token, and the parser then fails with a missing
  prefix handler. It is not a lexical error. `Examples.IllegalByte` proves
  this.
- `NextToken` returns one token and never fails. The parser's `advance`
  expects it to return a token and an error. The model uses the lexer as
  written: token sources are infallible, so `advance` has no error branch.
- The token of a call expression is its closing `)`. The current token is
  read only after the arguments are parsed.

## Model

| member | source | states |
|---|---|---|
| Tokens.LookupIdent | lexer/lexer.go:118-120 | a word is a keyword kind exactly when it is the text of that keyword (`let fn if else return true false`), and `IDENT` exactly when it is the text of none |
| ParserTables.PrecedenceOf | parser/parser.go:9-30 | levels run from LOWEST to CALL and never equal PREFIX; a kind binds above LOWEST exactly when it has an infix handler; it has CALL exactly when it is `(` |
| ParserTables.PrecedencesAgree | parser/parser.go:86-99 | the case analysis gives the table's entry for a kind in the table and LOWEST for every other kind |
| ParserTables.TablesAgree | parser/parser.go:52-73 | a kind has a registered prefix (infix) handler exactly when the case analysis gives one, and it is the same handler |
| ParserTables.PrefixFnOf | parser/parser.go:52-61 | no handler is registered for an illegal byte or end-of-input, so an expression never starts there; `-` and `(` are the only kinds with both a prefix and an infix handler |
| ParserTables.InfixFnOf | parser/parser.go:63-73 | none of the tokens that end an expression (`ILLEGAL`, end-of-input, `;`, `,`, `)`, `}`) has an infix handler; the call handler is registered for `(` and for nothing else |
| Strconv.ParseInt64 | parser/parse.go:162-165 | every value it accepts lies between 0 and 2^63-1 |
| Strconv.Decimal | parser/parse.go:162 | the decimal text of a number is a non-empty digit string with no leading zero unless the number is 0 |
| Strconv.ValueOfDecimal | parser/parse.go:162 | the digits of the decimal text read back as the number |
| Strconv.DecimalRoundTrip | parser/parse.go:162-167 | the decimal text of any number up to 2^63-1 converts back to that number |
| Strconv.DecimalOutOfRange | parser/parse.go:162-164 | the decimal text of any larger number is rejected |
| Strconv.ValueLowerBound | parser/parse.go:162 | a number written with k digits, the first not zero, is at least base^(k-1) |
| Strconv.LongDecimalIsOutOfRange | parser/parse.go:162-164 | twenty or more decimal digits without a leading zero are always out of range |
| Strconv.PowMonotone | parser/parse.go:162 | powers grow with the exponent, as the range bound needs |
| Strconv.LeadingZeroMeansOctal | parser/parse.go:162-164 | a digit string with a leading `0` and an `8` or `9` after it is rejected: base 0 reads it as octal |
| Lexer.RuneBytes | lexer/lexer.go:124 | the literal of an illegal byte is its UTF-8 encoding as a code point: the byte itself below 0x80, two bytes that decode to it from 0x80 on |
| Lexer.IsDigit | lexer/lexer.go:61-63 | a digit is not the 0 that stands for the end of the input, nor a byte that starts an operator or punctuation token |
| Lexer.IsLetter | lexer/lexer.go:134-136 | a letter is not a digit, not the end-of-input 0, and not a byte that starts an operator or punctuation token |
| Lexer.IsWhitespace | lexer/lexer.go:22-26 | whitespace is neither a letter nor a digit, nor the end-of-input 0, nor a byte that starts an operator or punctuation token |
| Lexer.NewToken | lexer/lexer.go:18-20 | a token of the given kind and literal, whose line is left at 0: the lexer never records lines |
| Lexer.RunEnd | lexer/lexer.go:22-26 | the end of the run of a byte class: every byte before it is in the class and the byte at it is not |
| Lexer.Scan | lexer/lexer.go:66-130 | one call always moves on, stays within the input unless it yields end-of-input, never yields the blank kind, and leaves the line at 0 |
| Lexer.ScanToken | lexer/lexer.go:71-126 | the token at the first non-blank byte: consumes at least one byte, and the same bounds as `Scan` |
| Lexer.ScanWord | lexer/lexer.go:46-52 | a word consumes at least one byte and stays within the input |
| Lexer.ScanNumber | lexer/lexer.go:53-59 | a number consumes at least one byte and stays within the input |
| Lexer.TokensFrom | lexer/lexer.go:66-130 | the stream of tokens from a position ends at its only end-of-input token and starts with the token `Scan` yields there |
| Lexer.PositionsFrom | lexer/lexer.go:28-36 | one start position per token of the stream, starting at the given position |
| Lexer.PositionStep | lexer/lexer.go:128 | scanning at the k-th position yields the k-th token and the (k+1)-th position |
| Lexer.PositionsStep | lexer/lexer.go:128 | the same for every token of the stream at once |
| Lexer.Lexer.constructor | lexer/lexer.go:12-16 | a new lexer is over its input with the first byte under examination |
| Lexer.Lexer.ReadChar | lexer/lexer.go:28-36 | the byte after the current one becomes current (0 past the end), and the read position is one past it |
| Lexer.Lexer.PeekChar | lexer/lexer.go:38-44 | the byte after the current one, or 0 past the end |
| Lexer.Lexer.SkipWhitespace | lexer/lexer.go:22-26 | the position moves to the end of the whitespace run |
| Lexer.Lexer.ReadIdentifier | lexer/lexer.go:46-52 | returns the input slice from the current byte to the end of its letter run, and the cursor ends on the run's last byte |
| Lexer.Lexer.ReadNumber | lexer/lexer.go:53-59 | returns the input slice from the current byte to the end of its digit run, and the cursor ends on the run's last byte |
| Lexer.Lexer.NextToken | lexer/lexer.go:66-130 | the token and the new position are exactly what `Scan` gives for the old position |
| LexerLaws.TwoByteOperators | lexer/lexer.go:72-93 | `==` and `!=` are one token of two bytes; a lone `=` is ASSIGN and a lone `!` is BANG, each of one byte |
| LexerLaws.OneByteTokens | lexer/lexer.go:81-113 | each of `+ - / * < > ; , { } ( )` yields its own kind with itself as literal and consumes one byte |
| LexerLaws.WhitespaceIsSkipped | lexer/lexer.go:22-26 | every byte skipped before a token is whitespace, and no literal holds a whitespace byte |
| LexerLaws.LiteralIsConsumedSlice | lexer/lexer.go:35 | every token but end-of-input (and an illegal byte from 0x80 on) has as literal exactly the input slice it consumed |
| LexerLaws.IdentifierIsLongestRun | lexer/lexer.go:46-52 | a word is the longest run of letters from its start, so a digit ends it, and its kind is the keyword lookup of its text |
| LexerLaws.IntegerIsLongestRun | lexer/lexer.go:53-63 | an integer is the longest run of digits from its start, its literal is that slice, and its kind is INT |
| LexerLaws.WordStart | lexer/lexer.go:118-120 | a letter starts a word |
| LexerLaws.NumberStart | lexer/lexer.go:121-122 | a digit starts a number |
| LexerLaws.OtherBytesAreIllegal | lexer/lexer.go:123-124 | any other non-zero byte yields ILLEGAL with that byte as text, consumes one byte, and does not stop the lexer |
| LexerLaws.Calls | lexer/lexer.go:66-130 | n calls yield n tokens |
| LexerLaws.EndOfInputRepeats | lexer/lexer.go:114-116 | at the end of the input every later call yields end-of-input with an empty literal |
| LexerLaws.ZeroByteEndsTheStream | lexer/lexer.go:114-116 | a 0 byte in the input ends the stream as end of input would |
| LexerLaws.StreamIsTheCallsUpToEof | lexer/lexer.go:66-130 | the token stream is exactly what successive calls return, up to the first end-of-input |
| Grammar.Advance | parser/parser.go:100-111 | the next index is one on unless the current token is end-of-input, where it stays |
| Grammar.Peek | parser/parser.go:100-111 | the peek token is the token after the current one, and at the end of the stream it is the end-of-input token itself |
| Grammar.ExpectPeek | parser/parser.go:124-135 | succeeds exactly when the peek token has the expected kind, and then the current token has it; otherwise UnexpectedToken with the peek token's line, the expected kind and the peek token's kind |
| Grammar.SkipSemicolon | parser/parse.go:69-74 | the cursor moves exactly when the peek token is `;` |
| Grammar.ParseProgram | parser/parse.go:9-31 | a stream at end-of-input is the empty program; a failing first statement is the program's error; otherwise the program starts with the first statement, and it holds at most one statement per token before end-of-input |
| Grammar.ParseStatements | parser/parse.go:17-28 | the statements found so far stay at the head of the result, followed by at most one statement per remaining token |
| Grammar.ParseStatement | parser/parse.go:33-42 | a statement is a `let` statement exactly when it starts with `let`, a `return` statement exactly when it starts with `return`, and keeps its first token |
| Grammar.ParseLetStatement | parser/parse.go:44-77 | a `let` statement names the identifier after `let`; anything else after `let` is UnexpectedToken for IDENT |
| Grammar.ParseReturnStatement | parser/parse.go:79-100 | a `return` statement keeps its token and ends past it |
| Grammar.ParseExpressionStatement | parser/parse.go:102-119 | an expression statement keeps its first token |
| Grammar.ParseExpression | parser/parse.go:121-149 | a token without a prefix handler is NoPrefixParseFn with its line and kind; a parsed expression ends where the peek token is `;` or binds no tighter than the given precedence |
| Grammar.CallPrefix | parser/parse.go:122-126 | the prefix handler never moves the cursor backwards |
| Grammar.InfixLoop | parser/parse.go:131-146 | the loop ends where the peek token is `;` or binds no tighter than the given precedence |
| Grammar.CallInfix | parser/parse.go:132-142 | the infix handler never moves the cursor backwards |
| Grammar.ParseIdentifier | parser/parse.go:155-157 | always succeeds with the current token as the identifier and its text as value |
| Grammar.ParseIntegerLiteral | parser/parse.go:159-170 | succeeds exactly when the literal converts, with a value in 0..2^63-1; otherwise an Integer error with the token's line and literal |
| Grammar.ParseBoolean | parser/parse.go:151-153 | always succeeds, and the value is true exactly for `true` |
| Grammar.ParsePrefixExpression | parser/parse.go:172-189 | the node keeps the operator token and its text, and the operand ends where nothing binds tighter than PREFIX |
| Grammar.ParseInfixExpression | parser/parse.go:191-210 | the node has the given left operand, the operator token and text, and a right operand parsed at the operator's own precedence |
| Grammar.ParseGroupedExpression | parser/parse.go:212-228 | a grouped expression ends on its `)` |
| Grammar.ParseIfExpression | parser/parse.go:230-281 | an `if` expression keeps its token and ends on a `}` or at end-of-input |
| Grammar.ParseElse | parser/parse.go:263-278 | no alternative leaves the cursor in place; an alternative ends on a `}` or at end-of-input |
| Grammar.ParseBlockStatement | parser/parse.go:283-306 | a block keeps its `{` and ends on a `}` or at end-of-input |
| Grammar.BlockLoop | parser/parse.go:292-303 | the block's statements found so far stay at the head, and the loop ends on `}` or end-of-input |
| Grammar.ParseFunctionLiteral | parser/parse.go:308-332 | a function literal keeps its token and ends on a `}` or at end-of-input |
| Grammar.ParseFunctionParameters | parser/parse.go:334-373 | the parameter list ends on a `)`, and every parameter's value is its token's text |
| Grammar.ParamsLoop | parser/parse.go:354-372 | parameters found so far stay at the head, every parameter's value is its token's text, and the loop ends on a `)` |
| Grammar.ParseCallExpression | parser/parse.go:375-383 | a call keeps its callee and takes as token the `)` the arguments end on |
| Grammar.ParseCallArguments | parser/parse.go:385-428 | an argument list ends on a `)` |
| Grammar.ArgsLoop | parser/parse.go:406-427 | arguments found so far stay at the head, and the loop ends on a `)` |
| GrammarLaws.LoopStops | parser/parse.go:131 | the loop stops at once when the peek token does not bind tighter than the precedence |
| GrammarLaws.OperatorStep | parser/parse.go:191-210 | a binary operator that binds tighter becomes the node's token, and its right operand is parsed at its own precedence |
| GrammarLaws.CallStep | parser/parse.go:375-383 | a `(` after an expression parses the arguments and makes a call with the closing `)` as token |
| GrammarLaws.IdentifierStart | parser/parse.go:155-157 | an identifier starts the loop with itself as left operand |
| GrammarLaws.PrefixStart | parser/parse.go:172-189 | a prefix operator parses its operand at PREFIX and starts the loop with the prefix node |
| GrammarLaws.IntegerAlone | parser/parse.go:159-170 | an integer in range followed by a token that does not bind tighter is that integer alone |
| GrammarLaws.IntegerOutOfRange | parser/parse.go:162-165 | an integer literal that does not convert is an Integer error carrying its line and literal |
| GrammarLaws.ExpressionStatementFails | parser/parse.go:105-108 | an expression statement fails with its expression's error |
| GrammarLaws.ExpressionStatementStep | parser/parse.go:102-119 | an expression statement is its expression, followed by an optional `;` |
| GrammarLaws.IdentifierAlone | parser/parse.go:155-157 | an identifier followed by a token that does not bind tighter is that identifier alone |
| GrammarLaws.OperatorsGroupLeft | parser/parse.go:131 | `a o1 b o2 c` with o1 binding at least as tightly as o2 groups as `(a o1 b) o2 c` |
| GrammarLaws.TighterOperatorGroupsFirst | parser/parse.go:191-210 | `a o1 b o2 c` with o2 binding more tightly groups as `a o1 (b o2 c)` |
| GrammarLaws.PrefixBindsTighterThanOperators | parser/parse.go:172-189 | `-a o b` groups as `(-a) o b` for every binary operator |
| GrammarLaws.CallBindsTighterThanPrefix | parser/parse.go:375-383 | `-f(x)` groups as `-(f(x))` |
| GrammarLaws.RegisteredHandlers | parser/parser.go:52-73 | prefix handlers exist exactly for IDENT INT BANG MINUS TRUE FALSE LPAREN IF FUNCTION, infix handlers exactly for the eight binary operators and LPAREN |
| GrammarLaws.NoInfixHandlerExitIsUnreachable | parser/parse.go:131-135 | whenever the loop goes on, the peek token has an infix handler, so the early exit never happens |
| GrammarLaws.LetNeedsIdentifierThenAssign | parser/parse.go:44-57 | `let` not followed by an identifier, or an identifier not followed by `=`, is UnexpectedToken for the missing kind |
| GrammarLaws.StatementsAccumulate | parser/parse.go:17-28 | the statement loop appends to what it was given: same outcome, same error, the earlier statements first |
| GrammarLaws.ProgramIsFirstStatementThenRest | parser/parse.go:9-31 | a program is its first statement followed by the program after it, and the first error is the result |
| GrammarLaws.FirstStatementFails | parser/parse.go:18-21 | a program whose first statement fails is that statement's error |
| GrammarLaws.EmptyProgram | parser/parse.go:14-17 | end-of-input as first token is the empty program |
| GrammarLaws.OneStatementProgram | parser/parse.go:17-30 | one statement followed by end-of-input is a program of that statement |
| GrammarLaws.TrailingSemicolonIsOptional | parser/parse.go:111-116 | `5` and `5;` are the same program of one integer statement |
| GrammarLaws.BlockMayEndAtEof | parser/parse.go:292 | one instance: `{ x` followed by end-of-input parses to the block holding the statement `x`, ending on end-of-input |
| GrammarSteps.Closed | parser/parse.go:131 | a `)`, `;` or `,` after an expression ends the loop at every precedence |
| GrammarSteps.GroupStart | parser/parse.go:212-228 | a `(` starts the loop with the grouped expression |
| GrammarSteps.GroupSteps | parser/parse.go:212-228 | a grouped expression is its inner expression, ending on the `)` |
| GrammarSteps.BooleanStart | parser/parse.go:151-153 | `true`/`false` start the loop with the boolean |
| GrammarSteps.PrefixSteps | parser/parse.go:172-189 | a prefix operator and its operand start the loop with the prefix node |
| GrammarSteps.OperatorSteps | parser/parse.go:191-210 | a tighter binary operator and its right operand continue the loop with the infix node |
| GrammarSteps.CallSteps | parser/parse.go:375-383 | a `(` and the arguments continue the loop with the call node |
| GrammarSteps.IfSteps | parser/parse.go:230-281 | `if`, the condition, the consequence and the alternative start the loop with the `if` node |
| GrammarSteps.IfParses | parser/parse.go:230-281 | the `if` handler returns the node of its parts, ending where the alternative ends |
| GrammarSteps.NoElse | parser/parse.go:263 | without `else` there is no alternative and the cursor stays on the `}` |
| GrammarSteps.ElseSteps | parser/parse.go:263-278 | `else` and a block make the alternative |
| GrammarSteps.FunctionSteps | parser/parse.go:308-332 | `fn`, the parameters and the body start the loop with the function literal |
| GrammarSteps.NoArguments | parser/parse.go:388-394 | `()` is the empty argument list, ending on the `)` |
| GrammarSteps.FirstArgument | parser/parse.go:396-404 | the first argument is parsed after the `(` and the loop continues with it |
| GrammarSteps.LastArgument | parser/parse.go:422-427 | a `)` after the last argument ends the list there |
| GrammarSteps.NextArgument | parser/parse.go:406-420 | a `,` and an argument extend the list |
| GrammarSteps.NoParameters | parser/parse.go:337-343 | `()` is the empty parameter list, ending on the `)` |
| GrammarSteps.FirstParameter | parser/parse.go:345-352 | the first parameter is the token after the `(`, whatever its kind |
| GrammarSteps.LastParameter | parser/parse.go:367-372 | a `)` after the last parameter ends the list there |
| GrammarSteps.NextParameter | parser/parse.go:354-365 | a `,` and the token after it, whatever its kind, extend the list |
| GrammarSteps.BlockSteps | parser/parse.go:283-306 | a block is its `{` and the statements up to its `}` |
| GrammarSteps.BlockEnd | parser/parse.go:292 | a `}` ends the block's loop |
| GrammarSteps.NextInBlock | parser/parse.go:292-303 | a statement in a block is followed by the rest of the block |
| GrammarSteps.ProgramEnd | parser/parse.go:17 | end-of-input ends the program's loop |
| GrammarSteps.NextInProgram | parser/parse.go:17-28 | a statement in the program is followed by the rest of the program |
| GrammarSteps.LetSteps | parser/parse.go:44-77 | `let name = value;` is the `let` statement, ending on the `;` |
| GrammarSteps.ReturnSteps | parser/parse.go:79-100 | `return value;` is the `return` statement, ending on the `;` |
| GrammarSteps.ExpressionStatementSteps | parser/parse.go:102-119 | `expression;` is the expression statement, ending on the `;` |
| GrammarSteps.IdentifierClosed | parser/parse.go:155-157 | an identifier followed by `)`, `;` or `,` is that identifier |
| GrammarSteps.IntegerClosed | parser/parse.go:159-170 | an integer in range followed by `)`, `;` or `,` is that integer |
| GrammarSteps.BooleanClosed | parser/parse.go:151-153 | a boolean followed by `)`, `;` or `,` is that boolean |
| GrammarSteps.OperandClosed | parser/parse.go:212-228 | a parenthesised operand followed by `)`, `;` or `,` is that operand, at any precedence |
| GrammarSteps.PrefixClosed | parser/parse.go:172-189 | a prefix operator and a parenthesised operand, followed by a closing token, is the prefix node |
| GrammarSteps.InfixClosed | parser/parse.go:191-210 | `(left) o (right)` followed by a closing token is the infix node |
| GrammarSteps.CallClosed | parser/parse.go:375-428 | `(callee)(arguments)` followed by a closing token is the call node, with the `)` as token |
| GrammarSteps.IfClosed | parser/parse.go:230-281 | an `if` form followed by a closing token is the `if` node |
| GrammarSteps.FunctionClosed | parser/parse.go:308-332 | a function literal followed by a closing token is the literal |
| Parser.Parser.constructor | parser/parser.go:47-76 | a new parser pulls from the given lexer, has every handler registered and holds no token yet |
| Parser.Parser.CurPrecedence | parser/parser.go:86-92 | the current token binds above LOWEST exactly when it has an infix handler |
| Parser.Parser.PeekPrecedence | parser/parser.go:93-99 | the peek token binds above LOWEST exactly when it has an infix handler |
| Parser.Parser.Advance | parser/parser.go:100-111 | peek becomes current and a new peek is fetched unless the new current token is end-of-input; the cursor moves as `Grammar.Advance` says |
| Parser.Parser.Preload | parser/parser.go:112-122 | two advances: from a new parser, the current token is the first of the stream and the peek the second |
| Parser.Parser.ExpectPeek | parser/parser.go:124-135 | returns what `Grammar.ExpectPeek` returns, and on failure the cursor does not move |
| Parser.Parser.ParseProgram | parser/parse.go:9-31 | returns what `Grammar.ParseProgram` returns from the first token |
| Parser.Parser.ParseStatement | parser/parse.go:33-42 | same outcome and end index as `Grammar.ParseStatement` |
| Parser.Parser.ParseLetStatement | parser/parse.go:44-77 | same outcome and end index as `Grammar.ParseLetStatement` |
| Parser.Parser.ParseReturnStatement | parser/parse.go:79-100 | same outcome and end index as `Grammar.ParseReturnStatement` |
| Parser.Parser.ParseExpressionStatement | parser/parse.go:102-119 | same outcome and end index as `Grammar.ParseExpressionStatement` |
| Parser.Parser.ParseExpression | parser/parse.go:121-149 | same outcome and end index as `Grammar.ParseExpression` |
| Parser.Parser.CallPrefix | parser/parse.go:122-126 | same outcome and end index as `Grammar.CallPrefix` |
| Parser.Parser.CallInfix | parser/parse.go:132-142 | same outcome and end index as `Grammar.CallInfix` |
| Parser.Parser.ParseBoolean | parser/parse.go:151-153 | same outcome as `Grammar.ParseBoolean`, without moving |
| Parser.Parser.ParseIdentifier | parser/parse.go:155-157 | same outcome as `Grammar.ParseIdentifier`, without moving |
| Parser.Parser.ParseIntegerLiteral | parser/parse.go:159-170 | same outcome as `Grammar.ParseIntegerLiteral`, without moving |
| Parser.Parser.ParsePrefixExpression | parser/parse.go:172-189 | same outcome and end index as `Grammar.ParsePrefixExpression` |
| Parser.Parser.ParseInfixExpression | parser/parse.go:191-210 | same outcome and end index as `Grammar.ParseInfixExpression` |
| Parser.Parser.ParseGroupedExpression | parser/parse.go:212-228 | same outcome and end index as `Grammar.ParseGroupedExpression` |
| Parser.Parser.ParseIfExpression | parser/parse.go:230-262 | same outcome and end index as `Grammar.ParseIfExpression` |
| Parser.Parser.ParseElse | parser/parse.go:263-278 | same outcome and end index as `Grammar.ParseElse` |
| Parser.Parser.ParseBlockStatement | parser/parse.go:283-306 | same outcome and end index as `Grammar.ParseBlockStatement` |
| Parser.Parser.ParseFunctionLiteral | parser/parse.go:308-332 | same outcome and end index as `Grammar.ParseFunctionLiteral` |
| Parser.Parser.ParseFunctionParameters | parser/parse.go:334-373 | same outcome and end index as `Grammar.ParseFunctionParameters` |
| Parser.Parser.ParseCallExpression | parser/parse.go:375-383 | same outcome and end index as `Grammar.ParseCallExpression` |
| Parser.Parser.ParseCallArguments | parser/parse.go:385-428 | same outcome and end index as `Grammar.ParseCallArguments` |
| RoundTrip.FirstTokenHasPrefixHandler | parser/parser.go:52-61 | every well-formed expression (`WfExpression`) starts with a token that has a prefix handler |
| RoundTrip.UnclosedBlockRoundTrip | parser/parse.go:283-306 | every well-formed block (`WfBlock`) whose printed statements are followed directly by end-of-input, with no `}`, parses without an error to that same block, ending on end-of-input |
| RoundTrip.ProgramRoundTrip | parser/parse.go:9-31 | every well-formed program (`WfProgram`), printed and followed by end-of-input, parses back to itself |
| RoundTrip.TopLevelRoundTrip | parser/parse.go:17-28 | the printed statements up to end-of-input parse back to themselves, after those already found |
| RoundTrip.FirstTopLevel | parser/parse.go:17-28 | the first printed statement of the program parses back, and the loop goes on after it |
| RoundTrip.StatementRoundTrip | parser/parse.go:33-42 | a printed statement parses back to itself, ending on its `;` |
| RoundTrip.LetRoundTrip | parser/parse.go:44-77 | a printed `let` statement parses back to itself |
| RoundTrip.ReturnRoundTrip | parser/parse.go:79-100 | a printed `return` statement parses back to itself |
| RoundTrip.ExpressionStatementRoundTrip | parser/parse.go:102-119 | a printed expression statement parses back to itself |
| RoundTrip.ExpressionRoundTrip | parser/parse.go:121-149 | a printed expression followed by `)`, `;` or `,` parses back to itself, ending on its last token |
| RoundTrip.AtomRoundTrip | parser/parse.go:151-170 | a printed identifier, integer or boolean parses back to itself |
| RoundTrip.GroupRoundTrip | parser/parse.go:212-228 | an expression in parentheses parses back to the expression, ending on the `)` |
| RoundTrip.OperandRoundTrip | parser/parse.go:212-228 | a parenthesised operand parses back to the operand at any precedence |
| RoundTrip.PrefixRoundTrip | parser/parse.go:172-189 | a printed prefix expression parses back to itself |
| RoundTrip.InfixRoundTrip | parser/parse.go:191-210 | a printed infix expression parses back to itself |
| RoundTrip.CallRoundTrip | parser/parse.go:375-383 | a printed call parses back to itself |
| RoundTrip.ArgumentsRoundTrip | parser/parse.go:385-428 | printed arguments parse back to themselves, ending on the `)` |
| RoundTrip.MoreArgumentsRoundTrip | parser/parse.go:406-427 | the remaining printed arguments extend those already found |
| RoundTrip.IfRoundTrip | parser/parse.go:230-281 | a printed `if` expression parses back to itself |
| RoundTrip.ElseRoundTrip | parser/parse.go:263-278 | a printed alternative, or none, parses back to itself |
| RoundTrip.FunctionRoundTrip | parser/parse.go:308-332 | a printed function literal parses back to itself |
| RoundTrip.ParametersRoundTrip | parser/parse.go:334-373 | printed parameters parse back to themselves, ending on the `)` |
| RoundTrip.MoreParametersRoundTrip | parser/parse.go:354-372 | the remaining printed parameters extend those already found |
| RoundTrip.BlockRoundTrip | parser/parse.go:283-306 | a printed block parses back to itself, ending on its `}` |
| RoundTrip.StatementsRoundTrip | parser/parse.go:292-303 | a block's printed statements parse back to themselves, after those already found |
| RoundTrip.FirstInBlock | parser/parse.go:292-303 | the first printed statement of a block parses back, and the loop goes on after it |
| Examples.EndStep | lexer/lexer.go:114-116 | at the end of the input the lexer yields end-of-input and moves one on |
| Examples.FiveTokens | lexer/lexer.go:121-122 | `5` lexes to INT `5` and end-of-input |
| Examples.FiveSemicolonTokens | lexer/lexer.go:102-103 | `5;` lexes to INT `5`, `;` and end-of-input |
| Examples.FiveValue | parser/parse.go:162 | `5` converts to 5 |
| Examples.Five | parser/parser_test.go:80-81 | `5` and `5;` both parse to one expression statement holding the integer 5 |
| Examples.DigitsToTheEnd | lexer/lexer.go:55-57 | a run of digits that reaches the end of the input ends there |
| Examples.DecimalTokens | lexer/lexer.go:121-122 | the decimal text of any number lexes to one INT token and end-of-input |
| Examples.DecimalProgram | parser/parse.go:159-170 | the decimal text of any number up to 2^63-1 parses to one integer statement with that value |
| Examples.DecimalTooLarge | parser/parser_test.go:274 | the decimal text of any larger number fails with an Integer error carrying the text |
| Examples.IdentifierThenDigitTokens | lexer/lexer.go:134-136 | `asd_1` lexes to IDENT `asd_`, INT `1` and end-of-input |
| Examples.IdentifierStatement | parser/parse.go:102-119 | an identifier followed by a token that does not bind and is not `;` is an expression statement of that identifier, ending on it |
| Examples.FinalInteger | parser/parse.go:17-30 | an integer in range as last token is a program of that one statement |
| Examples.IdentifierThenInteger | parser/parse.go:17-30 | an identifier then an integer are two statements, in source order |
| Examples.IdentifierThenDigit | parser/parser_test.go:113-114 | `asd_1` parses to the statements `asd_` and `1`, not to the one identifier the test expects |
| Examples.IllegalByte | parser/parser_test.go:273 | `@` fails with NoPrefixParseFn for ILLEGAL, not with a lexical error as the test expects |

## Left out

- The evaluator, its environment and runtime values, and the embedding API
  of `interpreter.go`. The parser's output is where this model ends.
- The `Error()` text of the error types. Only the error variants and their
  fields are modelled.
- `ErrUnexpectedChar`. The lexer never constructs it, so there is no
  lexical failure path.
- Line numbers. The lexer never sets them, so every token's line is 0, and
  the errors carry that 0.
- The error branch of `advance` (parser/parser.go:105-108). The lexer as
  written cannot fail, so token sources are infallible. `Parser.Parser.Advance`
  pulls one token per call.
- Strconv.ParseInt64: covers only the digit strings the lexer produces, not
  the signs, underscores or `0x`/`0b`/`0o` prefixes `strconv.ParseInt`
  also reads. It does not carry Go's error value either, only the fact of
  failure.
- `registerPrefix` and `registerInfix`. They are modelled as the constant
  maps the constructor installs, not as calls.
- The `token` package's `LookupIdent`, which is not part of this model's
  sources. It is modelled from its use in the lexer and from the keyword
  cases of the lexer's tests.
- RoundTrip.ProgramRoundTrip: covers the printed form with every operand
  of an operator in parentheses and every statement closed by `;`, not
  every spelling that parses to the same tree.
- RoundTrip.ProgramRoundTrip: covers well-formed programs only, so two
  kinds of tree the parser builds are outside it: an expression statement
  over an infix or call expression, whose token is its first operand's
  token rather than the `(` the printed form starts with; and a function
  literal whose parameters are not identifiers.
