/**
 * The parser inverts printing: every well-formed tree, written out as
 * tokens with each operand in parentheses and each statement closed by a
 * semicolon, parses back to itself.
 */
module RoundTrip {
  import opened Tokens
  import opened Results
  import opened Ast
  import opened ParserTables
  import opened Strconv
  import opened Grammar
  import opened GrammarLaws
  import opened GrammarSteps

  /** The punctuation the printer adds around the nodes' own tokens. */
  const LP := Token(LParen, ['(' as byte], 0)
  const RP := Token(RParen, [')' as byte], 0)
  const COMMA := Token(Comma, [',' as byte], 0)
  const SEMI := Token(Semicolon, [';' as byte], 0)
  const ASSIGN := Token(Assign, ['=' as byte], 0)
  const RB := Token(RBrace, ['}' as byte], 0)
  const ELSE := Token(Else, KeywordText(Else), 0)

  /** A well-formed identifier: an identifier token whose text is its name. */
  predicate WfIdentifier(id: Identifier) {
    id.token.kind == Ident && id.value == id.token.literal
  }

  /**
   * A well-formed tree: every node's token has the kind its handler is
   * registered for, and every value is the one the parser derives from
   * that token. Not every tree the parser builds is well formed: an
   * expression statement over an infix or call expression holds its first
   * operand's token rather than `(`, and function parameters need not be
   * identifiers.
   */
  predicate WfExpression(e: Expression)
    decreases e
  {
    match e
    case IdentifierExpression(id) => WfIdentifier(id)
    case IntegerLiteral(t, v) => t.kind == Int && ParseInt64(t.literal) == Some(v)
    case Boolean(t, b) => (t.kind == True || t.kind == False) && b == (t.kind == True)
    case PrefixExpression(t, op, r) => (t.kind == Bang || t.kind == Minus) && op == t.literal && WfExpression(r)
    case InfixExpression(t, l, op, r) => IsBinaryOperator(t.kind) && op == t.literal && WfExpression(l) && WfExpression(r)
    case IfExpression(t, c, cons, alt) =>
      t.kind == If && WfExpression(c) && WfBlock(cons) && (alt.Some? ==> WfBlock(alt.value))
    case FunctionLiteral(t, ps, body) => t.kind == Function && (forall p | p in ps :: WfIdentifier(p)) && WfBlock(body)
    case CallExpression(t, callee, args) => t.kind == RParen && WfExpression(callee) && forall a | a in args :: WfExpression(a)
  }

  predicate WfBlock(b: BlockStatement)
    decreases b
  {
    b.token.kind == LBrace && forall s | s in b.statements :: WfStatement(s)
  }

  predicate WfStatement(s: Statement)
    decreases s
  {
    match s
    case LetStatement(t, name, v) => t.kind == Let && WfIdentifier(name) && WfExpression(v)
    case ReturnStatement(t, v) => t.kind == Return && WfExpression(v)
    case ExpressionStatement(t, e) => t == FirstToken(e) && WfExpression(e)
  }

  predicate WfProgram(p: Program) {
    forall s | s in p.statements :: WfStatement(s)
  }

  /** The first token of an expression's printed form. */
  function FirstToken(e: Expression): Token {
    match e
    case IdentifierExpression(id) => id.token
    case IntegerLiteral(t, _) => t
    case Boolean(t, _) => t
    case PrefixExpression(t, _, _) => t
    case InfixExpression(_, _, _, _) => LP
    case IfExpression(t, _, _, _) => t
    case FunctionLiteral(t, _, _) => t
    case CallExpression(_, _, _) => LP
  }

  /** A well-formed expression starts with a token that has a prefix handler. */
  lemma FirstTokenHasPrefixHandler(e: Expression)
    requires WfExpression(e)
    ensures PrefixFnOf(FirstToken(e).kind).Some?
  {
  }

  /** No end-of-input token among `ts`. */
  predicate NoEof(ts: seq<Token>) {
    forall k | 0 <= k < |ts| :: ts[k].kind != Eof
  }

  lemma NoEofAppend(a: seq<Token>, b: seq<Token>)
    requires NoEof(a) && NoEof(b)
    ensures NoEof(a + b)
  {
    forall k | 0 <= k < |a + b|
      ensures (a + b)[k].kind != Eof
    {
      if k >= |a| {
        assert (a + b)[k] == b[k - |a|];
      }
    }
  }

  /** The tokens without end-of-input, followed by one, make a complete stream. */
  lemma NoEofThenEof(a: seq<Token>, eof: Token)
    requires NoEof(a) && eof.kind == Eof
    ensures EofTerminated(a + [eof])
  {
    forall k | 0 <= k < |a|
      ensures (a + [eof])[k].kind != Eof
    {
      assert (a + [eof])[k] == a[k];
    }
  }

  /** The printed form of an expression. It holds no end-of-input. */
  function ExpressionTokens(e: Expression): (r: seq<Token>)
    requires WfExpression(e)
    ensures |r| >= 1 && r[0] == FirstToken(e) && NoEof(r)
    decreases e, 2
  {
    match e
    case IdentifierExpression(id) => [id.token]
    case IntegerLiteral(t, _) => [t]
    case Boolean(t, _) => [t]
    case PrefixExpression(t, _, r) => NoEofAppend([t], GroupTokens(r)); [t] + GroupTokens(r)
    case InfixExpression(_, _, _, _) => InfixTokens(e)
    case IfExpression(_, _, _, _) => IfTokens(e)
    case FunctionLiteral(_, _, _) => FunctionTokens(e)
    case CallExpression(_, _, _) => CallTokens(e)
  }

  /** The left operand in parentheses, the operator, and the right operand in parentheses. */
  function InfixTokens(e: Expression): (r: seq<Token>)
    requires e.InfixExpression? && WfExpression(e)
    ensures |r| >= 1 && r[0] == LP && NoEof(r)
    decreases e, 1
  {
    var left, right := GroupTokens(e.left), GroupTokens(e.right);
    NoEofAppend(left, [e.token]);
    NoEofAppend(left + [e.token], right);
    left + [e.token] + right
  }

  /** `if`, the condition in parentheses, the consequence, and the alternative if there is one. */
  function IfTokens(e: Expression): (r: seq<Token>)
    requires e.IfExpression? && WfExpression(e)
    ensures |r| >= 1 && r[0] == e.token && NoEof(r)
    decreases e, 1
  {
    var head := [e.token, LP] + ExpressionTokens(e.condition) + [RP];
    NoEofAppend([e.token, LP], ExpressionTokens(e.condition));
    NoEofAppend([e.token, LP] + ExpressionTokens(e.condition), [RP]);
    var consequence, alternative := BlockTokens(e.consequence), ElseTokens(e.alternative);
    NoEofAppend(head, consequence);
    NoEofAppend(head + consequence, alternative);
    head + consequence + alternative
  }

  /** `else` and the alternative block, or nothing. */
  function ElseTokens(alternative: Option<BlockStatement>): (r: seq<Token>)
    requires alternative.Some? ==> WfBlock(alternative.value)
    ensures NoEof(r)
    decreases alternative, 1
  {
    if alternative.None? then []
    else
      NoEofAppend([ELSE], BlockTokens(alternative.value));
      [ELSE] + BlockTokens(alternative.value)
  }

  /** `fn`, the parameters in parentheses, and the body. */
  function FunctionTokens(e: Expression): (r: seq<Token>)
    requires e.FunctionLiteral? && WfExpression(e)
    ensures |r| >= 1 && r[0] == e.token && NoEof(r)
    decreases e, 1
  {
    var parameters, body := ParameterTokens(e.parameters), BlockTokens(e.body);
    NoEofAppend([e.token, LP], parameters);
    NoEofAppend([e.token, LP] + parameters, [RP]);
    NoEofAppend([e.token, LP] + parameters + [RP], body);
    [e.token, LP] + parameters + [RP] + body
  }

  /** The callee in parentheses, then the arguments in parentheses; the node's token is the closing one. */
  function CallTokens(e: Expression): (r: seq<Token>)
    requires e.CallExpression? && WfExpression(e)
    ensures |r| >= 1 && r[0] == LP && NoEof(r)
    decreases e, 1
  {
    var callee, arguments := GroupTokens(e.callee), ArgumentTokens(e.arguments);
    NoEofAppend(callee, [LP]);
    NoEofAppend(callee + [LP], arguments);
    NoEofAppend(callee + [LP] + arguments, [e.token]);
    callee + [LP] + arguments + [e.token]
  }

  /** An expression in parentheses. */
  function GroupTokens(e: Expression): (r: seq<Token>)
    requires WfExpression(e)
    ensures |r| >= 3 && r[0] == LP && r[|r| - 1] == RP && NoEof(r)
    decreases e, 3
  {
    NoEofAppend([LP], ExpressionTokens(e));
    NoEofAppend([LP] + ExpressionTokens(e), [RP]);
    [LP] + ExpressionTokens(e) + [RP]
  }

  /** Call arguments, separated by commas. */
  function ArgumentTokens(args: seq<Expression>): (r: seq<Token>)
    requires forall a | a in args :: WfExpression(a)
    ensures NoEof(r)
    decreases args, 1
  {
    if args == [] then []
    else
      assert args[0] in args;
      NoEofAppend(ExpressionTokens(args[0]), MoreArguments(args[1..]));
      ExpressionTokens(args[0]) + MoreArguments(args[1..])
  }

  /** The arguments after the first, each after a comma. */
  function MoreArguments(args: seq<Expression>): (r: seq<Token>)
    requires forall a | a in args :: WfExpression(a)
    ensures NoEof(r)
    ensures args != [] ==> |r| >= 1 && r[0] == COMMA
    decreases args, 0
  {
    if args == [] then []
    else
      assert args[0] in args;
      NoEofAppend([COMMA], ExpressionTokens(args[0]));
      NoEofAppend([COMMA] + ExpressionTokens(args[0]), MoreArguments(args[1..]));
      [COMMA] + ExpressionTokens(args[0]) + MoreArguments(args[1..])
  }

  /** Function parameters, separated by commas. */
  function ParameterTokens(ps: seq<Identifier>): (r: seq<Token>)
    requires forall p | p in ps :: WfIdentifier(p)
    ensures NoEof(r)
  {
    if ps == [] then []
    else
      assert ps[0] in ps && WfIdentifier(ps[0]) && ps[0].token.kind == Ident;
      NoEofAppend([ps[0].token], MoreParameters(ps[1..]));
      [ps[0].token] + MoreParameters(ps[1..])
  }

  function MoreParameters(ps: seq<Identifier>): (r: seq<Token>)
    requires forall p | p in ps :: WfIdentifier(p)
    ensures NoEof(r)
  {
    if ps == [] then []
    else
      assert ps[0] in ps && WfIdentifier(ps[0]) && ps[0].token.kind == Ident;
      NoEofAppend([COMMA, ps[0].token], MoreParameters(ps[1..]));
      [COMMA, ps[0].token] + MoreParameters(ps[1..])
  }

  /** A block: its own `{`, the statements, and a closing `}`. */
  function BlockTokens(b: BlockStatement): (r: seq<Token>)
    requires WfBlock(b)
    ensures |r| >= 2 && r[0] == b.token && r[|r| - 1] == RB && NoEof(r)
    decreases b, 1
  {
    NoEofAppend([b.token], StatementsTokens(b.statements));
    NoEofAppend([b.token] + StatementsTokens(b.statements), [RB]);
    [b.token] + StatementsTokens(b.statements) + [RB]
  }

  function StatementsTokens(ss: seq<Statement>): (r: seq<Token>)
    requires forall s | s in ss :: WfStatement(s)
    ensures NoEof(r)
    decreases ss, 0
  {
    if ss == [] then []
    else
      assert ss[0] in ss;
      NoEofAppend(StatementTokens(ss[0]), StatementsTokens(ss[1..]));
      StatementTokens(ss[0]) + StatementsTokens(ss[1..])
  }

  /**
   * A statement, always closed by a semicolon. It starts with a token that
   * neither closes a block nor ends the input.
   */
  function StatementTokens(s: Statement): (r: seq<Token>)
    requires WfStatement(s)
    ensures |r| >= 2 && r[0] == s.token && r[|r| - 1] == SEMI && NoEof(r)
    ensures r[0].kind != RBrace
    decreases s, 0
  {
    match s
    case LetStatement(t, name, v) =>
      NoEofAppend([t, name.token, ASSIGN], ExpressionTokens(v));
      NoEofAppend([t, name.token, ASSIGN] + ExpressionTokens(v), [SEMI]);
      [t, name.token, ASSIGN] + ExpressionTokens(v) + [SEMI]
    case ReturnStatement(t, v) =>
      NoEofAppend([t], ExpressionTokens(v));
      NoEofAppend([t] + ExpressionTokens(v), [SEMI]);
      [t] + ExpressionTokens(v) + [SEMI]
    case ExpressionStatement(_, e) =>
      NoEofAppend(ExpressionTokens(e), [SEMI]);
      ExpressionTokens(e) + [SEMI]
  }

  function ProgramTokens(p: Program): (r: seq<Token>)
    requires WfProgram(p)
    ensures NoEof(r)
  {
    StatementsTokens(p.statements)
  }

  lemma AppendFirst<T>(acc: seq<T>, s: seq<T>)
    requires s != []
    ensures acc + [s[0]] + s[1..] == acc + s
  {
    assert s == [s[0]] + s[1..];
  }

  lemma Uncons<T>(s: seq<T>)
    requires s != []
    ensures [s[0]] + s[1..] == s
  {
  }

  lemma AppendNothing<T>(s: seq<T>)
    ensures [] + s == s && s + [] == s
  {
  }

  /** `u` occurs in `ts` from index `i` on. */
  predicate Occurs(ts: seq<Token>, i: nat, u: seq<Token>)
    decreases u
  {
    i + |u| <= |ts| && (u == [] || (ts[i] == u[0] && Occurs(ts, i + 1, u[1..])))
  }

  /** Both parts of an occurrence occur, the second at `j`. */
  lemma {:induction false} Split(ts: seq<Token>, i: nat, u: seq<Token>, v: seq<Token>, j: nat)
    requires Occurs(ts, i, u + v) && j == i + |u|
    ensures Occurs(ts, i, u) && Occurs(ts, j, v)
    decreases u
  {
    if u != [] {
      assert (u + v)[1..] == u[1..] + v;
      Split(ts, i + 1, u[1..], v, j);
    } else {
      assert u + v == v;
    }
  }

  /** The token at `at` is the one at offset `k` of an occurrence starting at `i`. */
  lemma {:induction false} At(ts: seq<Token>, i: nat, u: seq<Token>, k: nat, at: nat)
    requires Occurs(ts, i, u) && k < |u| && at == i + k
    ensures at < |ts| && ts[at] == u[k]
    decreases k
  {
    if k > 0 {
      At(ts, i + 1, u[1..], k - 1, at);
    }
  }

  lemma {:induction false} OccursPrefix(a: seq<Token>, eof: Token)
    ensures Occurs(a + [eof], 0, a)
  {
    OccursFrom([], a, [eof]);
    assert [] + a + [eof] == a + [eof];
  }

  lemma {:induction false} OccursFrom(before: seq<Token>, u: seq<Token>, after: seq<Token>)
    ensures Occurs(before + u + after, |before|, u)
    decreases u
  {
    if u != [] {
      assert before + u + after == (before + [u[0]]) + u[1..] + after;
      OccursFrom(before + [u[0]], u[1..], after);
    }
  }

  /*
   * Where the parts of each printed form lie in the stream. Each layout
   * lemma names the positions the parser stops at: `last` is the last
   * token of the form.
   */

  lemma GroupLayout(e: Expression, ts: seq<Token>, i: nat, last: nat) returns (m: nat)
    requires WfExpression(e) && Occurs(ts, i, GroupTokens(e)) && last + 1 == i + |GroupTokens(e)|
    ensures ts[i].kind == LParen && Occurs(ts, i + 1, ExpressionTokens(e)) && m + 1 == i + 1 + |ExpressionTokens(e)|
    ensures m + 1 == last && m + 1 < |ts| && ts[m + 1].kind == RParen
  {
    var inner := ExpressionTokens(e);
    m := i + |inner|;
    Split(ts, i, [LP] + inner, [RP], m + 1);
    Split(ts, i, [LP], inner, i + 1);
    At(ts, i, [LP], 0, i);
    At(ts, m + 1, [RP], 0, m + 1);
  }

  lemma PrefixLayout(e: Expression, ts: seq<Token>, i: nat, last: nat)
    requires e.PrefixExpression? && WfExpression(e)
    requires Occurs(ts, i, ExpressionTokens(e)) && last + 1 == i + |ExpressionTokens(e)|
    ensures i + 1 < |ts| && ts[i] == e.token && (ts[i].kind == Bang || ts[i].kind == Minus)
    ensures Occurs(ts, i + 1, GroupTokens(e.right)) && last + 1 == i + 1 + |GroupTokens(e.right)|
  {
    Split(ts, i, [e.token], GroupTokens(e.right), i + 1);
    At(ts, i, [e.token], 0, i);
  }

  lemma InfixLayout(e: Expression, ts: seq<Token>, i: nat, last: nat) returns (a: nat)
    requires e.InfixExpression? && WfExpression(e)
    requires Occurs(ts, i, ExpressionTokens(e)) && last + 1 == i + |ExpressionTokens(e)|
    ensures ts[i].kind == LParen && Occurs(ts, i, GroupTokens(e.left)) && a + 1 == i + |GroupTokens(e.left)|
    ensures a + 2 < |ts| && ts[a + 1] == e.token && IsBinaryOperator(ts[a + 1].kind)
    ensures Occurs(ts, a + 2, GroupTokens(e.right)) && last + 1 == a + 2 + |GroupTokens(e.right)|
  {
    var left, right := GroupTokens(e.left), GroupTokens(e.right);
    a := i + |left| - 1;
    Split(ts, i, left + [e.token], right, a + 2);
    Split(ts, i, left, [e.token], a + 1);
    At(ts, i, left, 0, i);
    At(ts, a + 1, [e.token], 0, a + 1);
    At(ts, a + 2, right, 0, a + 2);
  }

  lemma CallLayout(e: Expression, ts: seq<Token>, i: nat, last: nat) returns (a: nat)
    requires e.CallExpression? && WfExpression(e)
    requires Occurs(ts, i, ExpressionTokens(e)) && last + 1 == i + |ExpressionTokens(e)|
    ensures ts[i].kind == LParen && Occurs(ts, i, GroupTokens(e.callee)) && a + 1 == i + |GroupTokens(e.callee)|
    ensures a + 1 < |ts| && ts[a + 1].kind == LParen
    ensures Occurs(ts, a + 1 + 1, ArgumentTokens(e.arguments)) && last == a + 1 + 1 + |ArgumentTokens(e.arguments)|
    ensures last < |ts| && ts[last] == e.token && ts[last].kind == RParen
  {
    var callee, arguments := GroupTokens(e.callee), ArgumentTokens(e.arguments);
    a := i + |callee| - 1;
    Split(ts, i, callee + [LP] + arguments, [e.token], last);
    Split(ts, i, callee + [LP], arguments, a + 1 + 1);
    Split(ts, i, callee, [LP], a + 1);
    At(ts, i, callee, 0, i);
    At(ts, a + 1, [LP], 0, a + 1);
    At(ts, last, [e.token], 0, last);
  }

  lemma ArgumentsLayout(args: seq<Expression>, ts: seq<Token>, j: nat, last: nat) returns (m: nat)
    requires args != [] && (forall a | a in args :: WfExpression(a))
    requires Occurs(ts, j + 1, ArgumentTokens(args)) && last == j + 1 + |ArgumentTokens(args)|
    requires last < |ts| && ts[last].kind == RParen
    ensures WfExpression(args[0]) && (forall a | a in args[1..] :: WfExpression(a))
    ensures ts[j + 1].kind != RParen
    ensures Occurs(ts, j + 1, ExpressionTokens(args[0])) && m + 1 == j + 1 + |ExpressionTokens(args[0])|
    ensures m + 1 < |ts| && Closes(ts[m + 1].kind)
    ensures Occurs(ts, m + 1, MoreArguments(args[1..])) && last == m + 1 + |MoreArguments(args[1..])|
  {
    assert args[0] in args;
    var first, rest := ExpressionTokens(args[0]), MoreArguments(args[1..]);
    m := j + |first|;
    Split(ts, j + 1, first, rest, m + 1);
    At(ts, j + 1, first, 0, j + 1);
    FirstTokenHasPrefixHandler(args[0]);
    if rest != [] {
      At(ts, m + 1, rest, 0, m + 1);
    }
  }

  lemma MoreArgumentsLayout(rest: seq<Expression>, ts: seq<Token>, j: nat, last: nat) returns (m: nat)
    requires rest != [] && (forall a | a in rest :: WfExpression(a))
    requires Occurs(ts, j + 1, MoreArguments(rest)) && last == j + 1 + |MoreArguments(rest)|
    requires last < |ts| && ts[last].kind == RParen
    ensures WfExpression(rest[0]) && (forall a | a in rest[1..] :: WfExpression(a))
    ensures j + 2 < |ts| && ts[j + 1].kind == Comma
    ensures Occurs(ts, j + 2, ExpressionTokens(rest[0])) && m + 1 == j + 2 + |ExpressionTokens(rest[0])|
    ensures m + 1 < |ts| && Closes(ts[m + 1].kind)
    ensures Occurs(ts, m + 1, MoreArguments(rest[1..])) && last == m + 1 + |MoreArguments(rest[1..])|
  {
    assert rest[0] in rest;
    var first, more := ExpressionTokens(rest[0]), MoreArguments(rest[1..]);
    m := j + 1 + |first|;
    Split(ts, j + 1, [COMMA] + first, more, m + 1);
    Split(ts, j + 1, [COMMA], first, j + 2);
    At(ts, j + 1, [COMMA], 0, j + 1);
    if more != [] {
      At(ts, m + 1, more, 0, m + 1);
    }
  }

  /** The tokens of an `if` form, with no tree in sight: where each part lies. */
  lemma IfShape(ts: seq<Token>, i: nat, t: Token, condition: seq<Token>, consequence: seq<Token>, alternative: seq<Token>, c: nat, b: nat)
    requires Occurs(ts, i, [t, LP] + condition + [RP] + consequence + alternative)
    requires c + 1 == i + 2 + |condition| && b + 1 == c + 2 + |consequence| && consequence != []
    ensures i + 1 < |ts| && ts[i] == t && ts[i + 1] == LP && Occurs(ts, i + 2, condition)
    ensures c + 2 < |ts| && ts[c + 1] == RP && ts[c + 2] == consequence[0]
    ensures Occurs(ts, c + 2, consequence) && Occurs(ts, b + 1, alternative)
  {
    var head := [t, LP] + condition + [RP];
    Split(ts, i, head + consequence, alternative, b + 1);
    Split(ts, i, head, consequence, c + 2);
    Split(ts, i, [t, LP] + condition, [RP], c + 1);
    Split(ts, i, [t, LP], condition, i + 2);
    At(ts, i, [t, LP], 0, i);
    At(ts, i, [t, LP], 1, i + 1);
    At(ts, c + 1, [RP], 0, c + 1);
    At(ts, c + 2, consequence, 0, c + 2);
  }

  lemma IfLayout(e: Expression, ts: seq<Token>, i: nat, last: nat) returns (c: nat, b: nat)
    requires e.IfExpression? && WfExpression(e)
    requires Occurs(ts, i, ExpressionTokens(e)) && last + 1 == i + |ExpressionTokens(e)|
    ensures i + 2 < |ts| && ts[i] == e.token && ts[i].kind == If && ts[i + 1].kind == LParen
    ensures Occurs(ts, i + 2, ExpressionTokens(e.condition)) && c + 1 == i + 2 + |ExpressionTokens(e.condition)|
    ensures c + 2 < |ts| && ts[c + 1].kind == RParen && ts[c + 2].kind == LBrace
    ensures Occurs(ts, c + 2, BlockTokens(e.consequence)) && b + 1 == c + 2 + |BlockTokens(e.consequence)|
    ensures Occurs(ts, b + 1, ElseTokens(e.alternative)) && last + 1 == b + 1 + |ElseTokens(e.alternative)|
  {
    var condition, consequence := ExpressionTokens(e.condition), BlockTokens(e.consequence);
    c := i + 1 + |condition|;
    b := c + 1 + |consequence|;
    IfShape(ts, i, e.token, condition, consequence, ElseTokens(e.alternative), c, b);
  }

  lemma ElseLayout(alternative: BlockStatement, ts: seq<Token>, b: nat, last: nat)
    requires WfBlock(alternative)
    requires Occurs(ts, b + 1, ElseTokens(Some(alternative))) && last + 1 == b + 1 + |ElseTokens(Some(alternative))|
    ensures b + 2 < |ts| && ts[b + 1].kind == Else && ts[b + 2].kind == LBrace
    ensures Occurs(ts, b + 2, BlockTokens(alternative)) && last + 1 == b + 2 + |BlockTokens(alternative)|
  {
    var block := BlockTokens(alternative);
    Split(ts, b + 1, [ELSE], block, b + 2);
    At(ts, b + 1, [ELSE], 0, b + 1);
    At(ts, b + 2, block, 0, b + 2);
  }

  /** The tokens of an `fn` form, with no tree in sight: where each part lies. */
  lemma FunctionShape(ts: seq<Token>, i: nat, t: Token, parameters: seq<Token>, body: seq<Token>, r: nat)
    requires Occurs(ts, i, [t, LP] + parameters + [RP] + body) && r == i + 2 + |parameters| && body != []
    ensures i + 1 < |ts| && ts[i] == t && ts[i + 1] == LP && Occurs(ts, i + 1 + 1, parameters)
    ensures r + 1 < |ts| && ts[r] == RP && ts[r + 1] == body[0] && Occurs(ts, r + 1, body)
  {
    Split(ts, i, [t, LP] + parameters + [RP], body, r + 1);
    Split(ts, i, [t, LP] + parameters, [RP], r);
    Split(ts, i, [t, LP], parameters, i + 1 + 1);
    At(ts, i, [t, LP], 0, i);
    At(ts, i, [t, LP], 1, i + 1);
    At(ts, r, [RP], 0, r);
    At(ts, r + 1, body, 0, r + 1);
  }

  lemma FunctionLayout(e: Expression, ts: seq<Token>, i: nat, last: nat) returns (r: nat)
    requires e.FunctionLiteral? && WfExpression(e)
    requires Occurs(ts, i, ExpressionTokens(e)) && last + 1 == i + |ExpressionTokens(e)|
    ensures i + 1 < |ts| && ts[i] == e.token && ts[i].kind == Function && ts[i + 1].kind == LParen
    ensures Occurs(ts, i + 1 + 1, ParameterTokens(e.parameters)) && r == i + 1 + 1 + |ParameterTokens(e.parameters)|
    ensures r + 1 < |ts| && ts[r].kind == RParen && ts[r + 1].kind == LBrace
    ensures Occurs(ts, r + 1, BlockTokens(e.body)) && last + 1 == r + 1 + |BlockTokens(e.body)|
  {
    var parameters, body := ParameterTokens(e.parameters), BlockTokens(e.body);
    r := i + 2 + |parameters|;
    FunctionShape(ts, i, e.token, parameters, body, r);
  }

  lemma ParametersLayout(ps: seq<Identifier>, ts: seq<Token>, j: nat, r: nat)
    requires ps != [] && (forall p | p in ps :: WfIdentifier(p))
    requires Occurs(ts, j + 1, ParameterTokens(ps)) && r == j + 1 + |ParameterTokens(ps)|
    ensures WfIdentifier(ps[0]) && (forall p | p in ps[1..] :: WfIdentifier(p))
    ensures j + 1 < |ts| && ts[j + 1] == ps[0].token && ts[j + 1].kind != RParen
    ensures Occurs(ts, j + 1 + 1, MoreParameters(ps[1..])) && r == j + 1 + 1 + |MoreParameters(ps[1..])|
  {
    assert ps[0] in ps;
    Split(ts, j + 1, [ps[0].token], MoreParameters(ps[1..]), j + 1 + 1);
    At(ts, j + 1, [ps[0].token], 0, j + 1);
  }

  lemma MoreParametersLayout(rest: seq<Identifier>, ts: seq<Token>, j: nat, r: nat)
    requires rest != [] && (forall p | p in rest :: WfIdentifier(p))
    requires Occurs(ts, j + 1, MoreParameters(rest)) && r == j + 1 + |MoreParameters(rest)|
    ensures WfIdentifier(rest[0]) && (forall p | p in rest[1..] :: WfIdentifier(p))
    ensures j + 2 < |ts| && ts[j + 1].kind == Comma && ts[j + 2] == rest[0].token
    ensures Occurs(ts, j + 2 + 1, MoreParameters(rest[1..])) && r == j + 2 + 1 + |MoreParameters(rest[1..])|
  {
    assert rest[0] in rest;
    Split(ts, j + 1, [COMMA, rest[0].token], MoreParameters(rest[1..]), j + 2 + 1);
    At(ts, j + 1, [COMMA, rest[0].token], 0, j + 1);
    At(ts, j + 1, [COMMA, rest[0].token], 1, j + 2);
  }

  lemma BlockLayout(b: BlockStatement, ts: seq<Token>, i: nat, last: nat)
    requires WfBlock(b) && Occurs(ts, i, BlockTokens(b)) && last + 1 == i + |BlockTokens(b)|
    ensures i + 1 < |ts| && ts[i] == b.token && ts[i].kind == LBrace
    ensures Occurs(ts, i + 1, StatementsTokens(b.statements)) && last == i + 1 + |StatementsTokens(b.statements)|
    ensures last < |ts| && ts[last].kind == RBrace
  {
    var body := StatementsTokens(b.statements);
    Split(ts, i, [b.token] + body, [RB], last);
    Split(ts, i, [b.token], body, i + 1);
    At(ts, i, [b.token], 0, i);
    At(ts, last, [RB], 0, last);
  }

  lemma StatementsLayout(ss: seq<Statement>, ts: seq<Token>, j: nat, last: nat) returns (k: nat)
    requires ss != [] && (forall s | s in ss :: WfStatement(s))
    requires Occurs(ts, j, StatementsTokens(ss)) && last == j + |StatementsTokens(ss)|
    ensures WfStatement(ss[0]) && (forall s | s in ss[1..] :: WfStatement(s))
    ensures j < |ts| && ts[j].kind != RBrace && ts[j].kind != Eof
    ensures Occurs(ts, j, StatementTokens(ss[0])) && k + 1 == j + |StatementTokens(ss[0])|
    ensures Occurs(ts, k + 1, StatementsTokens(ss[1..])) && last == k + 1 + |StatementsTokens(ss[1..])|
  {
    assert ss[0] in ss;
    var first, rest := StatementTokens(ss[0]), StatementsTokens(ss[1..]);
    k := j + |first| - 1;
    Split(ts, j, first, rest, k + 1);
    At(ts, j, first, 0, j);
  }

  lemma LetLayout(s: Statement, ts: seq<Token>, i: nat, last: nat) returns (m: nat)
    requires s.LetStatement? && WfStatement(s)
    requires Occurs(ts, i, StatementTokens(s)) && last + 1 == i + |StatementTokens(s)|
    ensures i + 3 < |ts| && ts[i] == s.token && ts[i].kind == Let
    ensures ts[i + 1] == s.name.token && ts[i + 1].kind == Ident && ts[i + 2].kind == Assign
    ensures Occurs(ts, i + 3, ExpressionTokens(s.value)) && m + 1 == i + 3 + |ExpressionTokens(s.value)|
    ensures m + 1 == last && m + 1 < |ts| && ts[m + 1].kind == Semicolon
  {
    var head, value := [s.token, s.name.token, ASSIGN], ExpressionTokens(s.value);
    m := i + 2 + |value|;
    Split(ts, i, head + value, [SEMI], m + 1);
    Split(ts, i, head, value, i + 3);
    At(ts, i, head, 0, i);
    At(ts, i, head, 1, i + 1);
    At(ts, i, head, 2, i + 2);
    At(ts, m + 1, [SEMI], 0, m + 1);
  }

  lemma ReturnLayout(s: Statement, ts: seq<Token>, i: nat, last: nat) returns (m: nat)
    requires s.ReturnStatement? && WfStatement(s)
    requires Occurs(ts, i, StatementTokens(s)) && last + 1 == i + |StatementTokens(s)|
    ensures i + 1 < |ts| && ts[i] == s.token && ts[i].kind == Return
    ensures Occurs(ts, i + 1, ExpressionTokens(s.returnValue)) && m + 1 == i + 1 + |ExpressionTokens(s.returnValue)|
    ensures m + 1 == last && m + 1 < |ts| && ts[m + 1].kind == Semicolon
  {
    var value := ExpressionTokens(s.returnValue);
    m := i + |value|;
    Split(ts, i, [s.token] + value, [SEMI], m + 1);
    Split(ts, i, [s.token], value, i + 1);
    At(ts, i, [s.token], 0, i);
    At(ts, m + 1, [SEMI], 0, m + 1);
  }

  lemma ExpressionStatementLayout(s: Statement, ts: seq<Token>, i: nat, last: nat) returns (m: nat)
    requires s.ExpressionStatement? && WfStatement(s)
    requires Occurs(ts, i, StatementTokens(s)) && last + 1 == i + |StatementTokens(s)|
    ensures i < |ts| && ts[i] == s.token && ts[i].kind != Let && ts[i].kind != Return
    ensures Occurs(ts, i, ExpressionTokens(s.expression)) && m + 1 == i + |ExpressionTokens(s.expression)|
    ensures m + 1 == last && m + 1 < |ts| && ts[m + 1].kind == Semicolon
  {
    var value := ExpressionTokens(s.expression);
    m := i + |value| - 1;
    Split(ts, i, value, [SEMI], m + 1);
    At(ts, i, value, 0, i);
    At(ts, m + 1, [SEMI], 0, m + 1);
    FirstTokenHasPrefixHandler(s.expression);
  }

  /*
   * The round trip, one printed form at a time. Every lemma takes the
   * position of the form's last token, and those of expressions also need
   * the token after it to close the expression.
   */

  /**
   * An expression's printed form, followed by a token that closes it,
   * parses back to the expression, and the parser stops on its last token.
   */
  lemma {:induction false} ExpressionRoundTrip(e: Expression, ts: seq<Token>, i: nat, last: nat)
    requires WfExpression(e) && EofTerminated(ts)
    requires Occurs(ts, i, ExpressionTokens(e)) && last + 1 == i + |ExpressionTokens(e)|
    requires last + 1 < |ts| && Closes(ts[last + 1].kind)
    ensures ParseExpression(ts, i, LOWEST) == Ok(Parsed(e, last))
    decreases |ExpressionTokens(e)|, 3
  {
    match e
    case IdentifierExpression(_) => AtomRoundTrip(e, ts, i, last);
    case IntegerLiteral(_, _) => AtomRoundTrip(e, ts, i, last);
    case Boolean(_, _) => AtomRoundTrip(e, ts, i, last);
    case PrefixExpression(_, _, _) => PrefixRoundTrip(e, ts, i, last);
    case InfixExpression(_, _, _, _) => InfixRoundTrip(e, ts, i, last);
    case IfExpression(_, _, _, _) => IfRoundTrip(e, ts, i, last);
    case FunctionLiteral(_, _, _) => FunctionRoundTrip(e, ts, i, last);
    case CallExpression(_, _, _) => CallRoundTrip(e, ts, i, last);
  }

  lemma AtomRoundTrip(e: Expression, ts: seq<Token>, i: nat, last: nat)
    requires (e.IdentifierExpression? || e.IntegerLiteral? || e.Boolean?) && WfExpression(e) && EofTerminated(ts)
    requires Occurs(ts, i, ExpressionTokens(e)) && last + 1 == i + |ExpressionTokens(e)|
    requires last + 1 < |ts| && Closes(ts[last + 1].kind)
    ensures ParseExpression(ts, i, LOWEST) == Ok(Parsed(e, last))
  {
    assert last == i;
    At(ts, i, ExpressionTokens(e), 0, i);
    match e
    case IdentifierExpression(_) => IdentifierClosed(ts, i);
    case IntegerLiteral(_, _) => IntegerClosed(ts, i);
    case Boolean(_, _) => BooleanClosed(ts, i);
  }

  /** An expression in parentheses parses back to the expression, ending on the `)`. */
  lemma {:induction false} GroupRoundTrip(e: Expression, ts: seq<Token>, i: nat, last: nat)
    requires WfExpression(e) && EofTerminated(ts)
    requires Occurs(ts, i, GroupTokens(e)) && last + 1 == i + |GroupTokens(e)|
    ensures ParseGroupedExpression(ts, i) == Ok(Parsed(e, last))
    decreases |GroupTokens(e)|, 0
  {
    var m := GroupLayout(e, ts, i, last);
    assert m + 1 < |ts| && ts[m + 1].kind == RParen && Closes(ts[m + 1].kind);
    ExpressionRoundTrip(e, ts, i + 1, m);
    GroupSteps(ts, i, e, m);
  }

  /** An operand in parentheses, followed by a token that closes it, parses back to the operand at any precedence. */
  lemma {:induction false} OperandRoundTrip(e: Expression, ts: seq<Token>, i: nat, precedence: int, last: nat)
    requires WfExpression(e) && EofTerminated(ts) && LOWEST <= precedence
    requires Occurs(ts, i, GroupTokens(e)) && last + 1 == i + |GroupTokens(e)|
    requires last + 1 < |ts| && Closes(ts[last + 1].kind)
    ensures ParseExpression(ts, i, precedence) == Ok(Parsed(e, last))
    decreases |GroupTokens(e)|, 1
  {
    At(ts, i, GroupTokens(e), 0, i);
    GroupRoundTrip(e, ts, i, last);
    OperandClosed(ts, i, precedence, e, last);
  }

  lemma {:induction false} PrefixRoundTrip(e: Expression, ts: seq<Token>, i: nat, last: nat)
    requires e.PrefixExpression? && WfExpression(e) && EofTerminated(ts)
    requires Occurs(ts, i, ExpressionTokens(e)) && last + 1 == i + |ExpressionTokens(e)|
    requires last + 1 < |ts| && Closes(ts[last + 1].kind)
    ensures ParseExpression(ts, i, LOWEST) == Ok(Parsed(e, last))
    decreases |ExpressionTokens(e)|, 2
  {
    PrefixLayout(e, ts, i, last);
    OperandRoundTrip(e.right, ts, i + 1, PREFIX, last);
    PrefixClosed(ts, i, e.right, last);
  }

  lemma {:induction false} InfixRoundTrip(e: Expression, ts: seq<Token>, i: nat, last: nat)
    requires e.InfixExpression? && WfExpression(e) && EofTerminated(ts)
    requires Occurs(ts, i, ExpressionTokens(e)) && last + 1 == i + |ExpressionTokens(e)|
    requires last + 1 < |ts| && Closes(ts[last + 1].kind)
    ensures ParseExpression(ts, i, LOWEST) == Ok(Parsed(e, last))
    decreases |ExpressionTokens(e)|, 2
  {
    var a := InfixLayout(e, ts, i, last);
    GroupRoundTrip(e.left, ts, i, a);
    OperandRoundTrip(e.right, ts, a + 2, PrecedenceOf(ts[a + 1].kind), last);
    InfixClosed(ts, i, e.left, a, e.right, last);
  }

  lemma {:induction false} CallRoundTrip(e: Expression, ts: seq<Token>, i: nat, last: nat)
    requires e.CallExpression? && WfExpression(e) && EofTerminated(ts)
    requires Occurs(ts, i, ExpressionTokens(e)) && last + 1 == i + |ExpressionTokens(e)|
    requires last + 1 < |ts| && Closes(ts[last + 1].kind)
    ensures ParseExpression(ts, i, LOWEST) == Ok(Parsed(e, last))
    decreases |ExpressionTokens(e)|, 2
  {
    var a := CallLayout(e, ts, i, last);
    GroupRoundTrip(e.callee, ts, i, a);
    ArgumentsRoundTrip(e.arguments, ts, a + 1, last);
    CallClosed(ts, i, e.callee, a, e.arguments, last);
  }

  /** The arguments after a `(`, up to the `)` at `last`. */
  lemma {:induction false} ArgumentsRoundTrip(args: seq<Expression>, ts: seq<Token>, j: nat, last: nat)
    requires (forall a | a in args :: WfExpression(a)) && EofTerminated(ts)
    requires Occurs(ts, j + 1, ArgumentTokens(args)) && last == j + 1 + |ArgumentTokens(args)|
    requires last < |ts| && ts[j].kind == LParen && ts[last].kind == RParen
    ensures ParseCallArguments(ts, j) == Ok(Parsed(args, last))
    decreases |ArgumentTokens(args)|, 4
  {
    if args == [] {
      assert last == j + 1;
      NoArguments(ts, j);
    } else {
      var m := ArgumentsLayout(args, ts, j, last);
      ExpressionRoundTrip(args[0], ts, j + 1, m);
      FirstArgument(ts, j, args[0], m);
      MoreArgumentsRoundTrip(args[1..], [args[0]], ts, m, last);
      Uncons(args);
    }
  }

  lemma {:induction false} MoreArgumentsRoundTrip(rest: seq<Expression>, acc: seq<Expression>, ts: seq<Token>, j: nat, last: nat)
    requires (forall a | a in rest :: WfExpression(a)) && EofTerminated(ts)
    requires Occurs(ts, j + 1, MoreArguments(rest)) && last == j + 1 + |MoreArguments(rest)|
    requires last < |ts| && ts[last].kind == RParen
    ensures ArgsLoop(ts, j, acc) == Ok(Parsed(acc + rest, last))
    decreases |MoreArguments(rest)|, 4
  {
    if rest == [] {
      assert last == j + 1;
      LastArgument(ts, j, acc);
      AppendNothing(acc);
    } else {
      var m := MoreArgumentsLayout(rest, ts, j, last);
      ExpressionRoundTrip(rest[0], ts, j + 2, m);
      NextArgument(ts, j, acc, rest[0], m);
      MoreArgumentsRoundTrip(rest[1..], acc + [rest[0]], ts, m, last);
      AppendFirst(acc, rest);
    }
  }

  lemma {:induction false} IfRoundTrip(e: Expression, ts: seq<Token>, i: nat, last: nat)
    requires e.IfExpression? && WfExpression(e) && EofTerminated(ts)
    requires Occurs(ts, i, ExpressionTokens(e)) && last + 1 == i + |ExpressionTokens(e)|
    requires last + 1 < |ts| && Closes(ts[last + 1].kind)
    ensures ParseExpression(ts, i, LOWEST) == Ok(Parsed(e, last))
    decreases |ExpressionTokens(e)|, 2
  {
    var c, b := IfLayout(e, ts, i, last);
    ExpressionRoundTrip(e.condition, ts, i + 2, c);
    BlockRoundTrip(e.consequence, ts, c + 2, b);
    ElseRoundTrip(e.alternative, ts, b, last);
    IfClosed(ts, i, e.condition, c, e.consequence, b, e.alternative, last);
  }

  /** What follows the consequence's `}` at `b`: `else` and a block, or nothing. */
  lemma {:induction false} ElseRoundTrip(alternative: Option<BlockStatement>, ts: seq<Token>, b: nat, last: nat)
    requires (alternative.Some? ==> WfBlock(alternative.value)) && EofTerminated(ts)
    requires Occurs(ts, b + 1, ElseTokens(alternative)) && last + 1 == b + 1 + |ElseTokens(alternative)|
    requires last + 1 < |ts| && Closes(ts[last + 1].kind)
    ensures ParseElse(ts, b) == Ok(Parsed(alternative, last))
    decreases |ElseTokens(alternative)|, 2
  {
    if alternative.Some? {
      ElseLayout(alternative.value, ts, b, last);
      BlockRoundTrip(alternative.value, ts, b + 2, last);
      ElseSteps(ts, b, alternative.value, last);
    } else {
      assert last == b;
      NoElse(ts, b);
    }
  }

  lemma {:induction false} FunctionRoundTrip(e: Expression, ts: seq<Token>, i: nat, last: nat)
    requires e.FunctionLiteral? && WfExpression(e) && EofTerminated(ts)
    requires Occurs(ts, i, ExpressionTokens(e)) && last + 1 == i + |ExpressionTokens(e)|
    requires last + 1 < |ts| && Closes(ts[last + 1].kind)
    ensures ParseExpression(ts, i, LOWEST) == Ok(Parsed(e, last))
    decreases |ExpressionTokens(e)|, 2
  {
    var r := FunctionLayout(e, ts, i, last);
    ParametersRoundTrip(e.parameters, ts, i + 1, r);
    BlockRoundTrip(e.body, ts, r + 1, last);
    FunctionClosed(ts, i, e.parameters, r, e.body, last);
  }

  /** The parameters after a `(` at `j`, up to the `)` at `r`. */
  lemma {:induction false} ParametersRoundTrip(ps: seq<Identifier>, ts: seq<Token>, j: nat, r: nat)
    requires (forall p | p in ps :: WfIdentifier(p)) && EofTerminated(ts)
    requires Occurs(ts, j + 1, ParameterTokens(ps)) && r == j + 1 + |ParameterTokens(ps)|
    requires r < |ts| && ts[r].kind == RParen
    ensures ParseFunctionParameters(ts, j) == Ok(Parsed(ps, r))
  {
    if ps == [] {
      assert r == j + 1;
      NoParameters(ts, j);
    } else {
      ParametersLayout(ps, ts, j, r);
      FirstParameter(ts, j);
      MoreParametersRoundTrip(ps[1..], [ps[0]], ts, j + 1, r);
      Uncons(ps);
    }
  }

  lemma {:induction false} MoreParametersRoundTrip(rest: seq<Identifier>, acc: seq<Identifier>, ts: seq<Token>, j: nat, r: nat)
    requires (forall p | p in rest :: WfIdentifier(p)) && (forall p | p in acc :: p.value == p.token.literal)
    requires EofTerminated(ts)
    requires Occurs(ts, j + 1, MoreParameters(rest)) && r == j + 1 + |MoreParameters(rest)|
    requires r < |ts| && ts[r].kind == RParen
    ensures ParamsLoop(ts, j, acc) == Ok(Parsed(acc + rest, r))
    decreases rest
  {
    if rest == [] {
      assert r == j + 1;
      LastParameter(ts, j, acc);
      AppendNothing(acc);
    } else {
      MoreParametersLayout(rest, ts, j, r);
      NextParameter(ts, j, acc);
      MoreParametersRoundTrip(rest[1..], acc + [rest[0]], ts, j + 2, r);
      AppendFirst(acc, rest);
    }
  }

  lemma {:induction false} BlockRoundTrip(b: BlockStatement, ts: seq<Token>, i: nat, last: nat)
    requires WfBlock(b) && EofTerminated(ts)
    requires Occurs(ts, i, BlockTokens(b)) && last + 1 == i + |BlockTokens(b)|
    ensures ParseBlockStatement(ts, i) == Ok(Parsed(b, last))
    decreases |BlockTokens(b)|, 1
  {
    BlockLayout(b, ts, i, last);
    StatementsRoundTrip(b.statements, [], ts, i + 1, last);
    AppendNothing(b.statements);
    BlockSteps(ts, i, b.statements, last);
  }

  /** The statements of a block, from `j` up to the `}` or the end of input at `last`. */
  lemma {:induction false} StatementsRoundTrip(ss: seq<Statement>, acc: seq<Statement>, ts: seq<Token>, j: nat, last: nat)
    requires (forall s | s in ss :: WfStatement(s)) && EofTerminated(ts)
    requires Occurs(ts, j, StatementsTokens(ss)) && last == j + |StatementsTokens(ss)|
    requires last < |ts| && (ts[last].kind == RBrace || ts[last].kind == Eof)
    ensures BlockLoop(ts, j, acc) == Ok(Parsed(acc + ss, last))
    decreases |StatementsTokens(ss)|, 4
  {
    if ss == [] {
      assert last == j;
      BlockEnd(ts, j, acc);
      AppendNothing(acc);
    } else {
      var k := FirstInBlock(ss, acc, ts, j, last);
      StatementsRoundTrip(ss[1..], acc + [ss[0]], ts, k + 1, last);
      AppendFirst(acc, ss);
    }
  }

  /**
   * A block whose closing brace is missing ends at the end of the input
   * without an error, and holds every statement printed before it.
   */
  lemma UnclosedBlockRoundTrip(b: BlockStatement, eof: Token)
    requires WfBlock(b) && eof.kind == Eof
    ensures EofTerminated([b.token] + StatementsTokens(b.statements) + [eof])
    ensures ParseBlockStatement([b.token] + StatementsTokens(b.statements) + [eof], 0)
         == Ok(Parsed(b, 1 + |StatementsTokens(b.statements)|))
  {
    var body := StatementsTokens(b.statements);
    var printed := [b.token] + body;
    var ts := printed + [eof];
    NoEofAppend([b.token], body);
    NoEofThenEof(printed, eof);
    OccursPrefix(printed, eof);
    Split(ts, 0, [b.token], body, 1);
    At(ts, 0, [b.token], 0, 0);
    StatementsRoundTrip(b.statements, [], ts, 1, |printed|);
    AppendNothing(b.statements);
    BlockSteps(ts, 0, b.statements, |printed|);
  }

  /** The first of a block's statements parses back, and the rest follow it. */
  lemma {:induction false} FirstInBlock(ss: seq<Statement>, acc: seq<Statement>, ts: seq<Token>, j: nat, last: nat) returns (k: nat)
    requires ss != [] && (forall s | s in ss :: WfStatement(s)) && EofTerminated(ts)
    requires Occurs(ts, j, StatementsTokens(ss)) && last == j + |StatementsTokens(ss)|
    requires last < |ts| && (ts[last].kind == RBrace || ts[last].kind == Eof)
    ensures forall s | s in ss[1..] :: WfStatement(s)
    ensures Occurs(ts, k + 1, StatementsTokens(ss[1..])) && last == k + 1 + |StatementsTokens(ss[1..])|
    ensures |StatementsTokens(ss[1..])| < |StatementsTokens(ss)|
    ensures BlockLoop(ts, j, acc) == BlockLoop(ts, k + 1, acc + [ss[0]])
    decreases |StatementsTokens(ss)|, 3
  {
    k := StatementsLayout(ss, ts, j, last);
    StatementRoundTrip(ss[0], ts, j, k);
    NextInBlock(ts, j, acc, ss[0], k);
  }

  lemma {:induction false} StatementRoundTrip(s: Statement, ts: seq<Token>, i: nat, last: nat)
    requires WfStatement(s) && EofTerminated(ts)
    requires Occurs(ts, i, StatementTokens(s)) && last + 1 == i + |StatementTokens(s)|
    ensures ParseStatement(ts, i) == Ok(Parsed(s, last))
    decreases |StatementTokens(s)|, 2
  {
    match s
    case LetStatement(_, _, _) => LetRoundTrip(s, ts, i, last);
    case ReturnStatement(_, _) => ReturnRoundTrip(s, ts, i, last);
    case ExpressionStatement(_, _) => ExpressionStatementRoundTrip(s, ts, i, last);
  }

  lemma {:induction false} LetRoundTrip(s: Statement, ts: seq<Token>, i: nat, last: nat)
    requires s.LetStatement? && WfStatement(s) && EofTerminated(ts)
    requires Occurs(ts, i, StatementTokens(s)) && last + 1 == i + |StatementTokens(s)|
    ensures ParseStatement(ts, i) == Ok(Parsed(s, last))
    decreases |StatementTokens(s)|, 1
  {
    var m := LetLayout(s, ts, i, last);
    ExpressionRoundTrip(s.value, ts, i + 3, m);
    LetSteps(ts, i, s.value, m);
  }

  lemma {:induction false} ReturnRoundTrip(s: Statement, ts: seq<Token>, i: nat, last: nat)
    requires s.ReturnStatement? && WfStatement(s) && EofTerminated(ts)
    requires Occurs(ts, i, StatementTokens(s)) && last + 1 == i + |StatementTokens(s)|
    ensures ParseStatement(ts, i) == Ok(Parsed(s, last))
    decreases |StatementTokens(s)|, 1
  {
    var m := ReturnLayout(s, ts, i, last);
    ExpressionRoundTrip(s.returnValue, ts, i + 1, m);
    ReturnSteps(ts, i, s.returnValue, m);
  }

  lemma {:induction false} ExpressionStatementRoundTrip(s: Statement, ts: seq<Token>, i: nat, last: nat)
    requires s.ExpressionStatement? && WfStatement(s) && EofTerminated(ts)
    requires Occurs(ts, i, StatementTokens(s)) && last + 1 == i + |StatementTokens(s)|
    ensures ParseStatement(ts, i) == Ok(Parsed(s, last))
    decreases |StatementTokens(s)|, 1
  {
    var m := ExpressionStatementLayout(s, ts, i, last);
    ExpressionRoundTrip(s.expression, ts, i, m);
    ExpressionStatementSteps(ts, i, s.expression, m);
  }

  /** The program's statements, from `j` up to the end of input at `last`. */
  lemma {:induction false} TopLevelRoundTrip(ss: seq<Statement>, acc: seq<Statement>, ts: seq<Token>, j: nat, last: nat)
    requires (forall s | s in ss :: WfStatement(s)) && EofTerminated(ts)
    requires Occurs(ts, j, StatementsTokens(ss)) && last == j + |StatementsTokens(ss)|
    requires last < |ts| && ts[last].kind == Eof
    ensures ParseStatements(ts, j, acc) == Ok(acc + ss)
    decreases ss
  {
    if ss == [] {
      assert last == j;
      ProgramEnd(ts, j, acc);
      AppendNothing(acc);
    } else {
      var k := FirstTopLevel(ss, acc, ts, j, last);
      TopLevelRoundTrip(ss[1..], acc + [ss[0]], ts, k + 1, last);
      AppendFirst(acc, ss);
    }
  }

  /** The first of the program's statements parses back, and the rest follow it. */
  lemma FirstTopLevel(ss: seq<Statement>, acc: seq<Statement>, ts: seq<Token>, j: nat, last: nat) returns (k: nat)
    requires ss != [] && (forall s | s in ss :: WfStatement(s)) && EofTerminated(ts)
    requires Occurs(ts, j, StatementsTokens(ss)) && last == j + |StatementsTokens(ss)|
    requires last < |ts| && ts[last].kind == Eof
    ensures forall s | s in ss[1..] :: WfStatement(s)
    ensures Occurs(ts, k + 1, StatementsTokens(ss[1..])) && last == k + 1 + |StatementsTokens(ss[1..])|
    ensures ParseStatements(ts, j, acc) == ParseStatements(ts, k + 1, acc + [ss[0]])
  {
    k := StatementsLayout(ss, ts, j, last);
    StatementRoundTrip(ss[0], ts, j, k);
    NextInProgram(ts, j, acc, ss[0], k);
  }

  /**
   * The parser inverts the printer: every well-formed program (`WfProgram`)
   * is what it parses from its printed form followed by the end of the
   * input.
   */
  lemma ProgramRoundTrip(p: Program, eof: Token)
    requires WfProgram(p) && eof.kind == Eof
    ensures EofTerminated(ProgramTokens(p) + [eof])
    ensures ParseProgram(ProgramTokens(p) + [eof], 0) == Ok(p)
  {
    var printed := ProgramTokens(p);
    var ts := printed + [eof];
    NoEofThenEof(printed, eof);
    OccursPrefix(printed, eof);
    TopLevelRoundTrip(p.statements, [], ts, 0, |printed|);
    AppendNothing(p.statements);
  }
}
