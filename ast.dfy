/**
 * The syntax tree the parser builds. Every node keeps the token that
 * introduced it.
 */
module Ast {
  import opened Tokens
  import opened Results

  datatype Identifier = Identifier(token: Token, value: Bytes)

  datatype Expression =
    | IdentifierExpression(id: Identifier)
    | IntegerLiteral(token: Token, intValue: int)
    | Boolean(token: Token, boolValue: bool)
    | PrefixExpression(token: Token, operator: Bytes, right: Expression)
    | InfixExpression(token: Token, left: Expression, operator: Bytes, right: Expression)
    | IfExpression(token: Token, condition: Expression, consequence: BlockStatement, alternative: Option<BlockStatement>)
    | FunctionLiteral(token: Token, parameters: seq<Identifier>, body: BlockStatement)
      /** `callee` is the node's `Function` field. */
    | CallExpression(token: Token, callee: Expression, arguments: seq<Expression>)

  datatype Statement =
    | LetStatement(token: Token, name: Identifier, value: Expression)
    | ReturnStatement(token: Token, returnValue: Expression)
    | ExpressionStatement(token: Token, expression: Expression)

  datatype BlockStatement = BlockStatement(token: Token, statements: seq<Statement>)

  datatype Program = Program(statements: seq<Statement>)
}
