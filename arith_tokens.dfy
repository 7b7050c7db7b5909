/**
  The values of the arithmetic pipeline (`arithmeticSyntax/`): token kinds,
  tokens, diagnostics and the concrete syntax tree its parser builds.
 */
module ArithTokens {
  import opened Wrappers
  import opened KotlinInt

  /** `TokenType`, with the MODULO, SQR and SQRT members the tokenizer produces. */
  datatype TokenKind =
    | BadToken | Eof | Whitespace
    | Number
    | Plus | Minus | Times | Slash
    | OpenParen | CloseParen
    | ExponentArrow | Modulo
    | Sqr | Sqrt

  /** `SyntaxToken(type, position, text, value)`; only NUMBER tokens carry a value. */
  datatype Token = Token(kind: TokenKind, position: nat, text: string, value: Option<Int32>)

  /** The reports the tokenizer and the parser add to their diagnostics lists. */
  datatype Diagnostic =
    | NumberNotRepresentable(text: string)
    | BadCharacter(character: char, position: nat)
    | UnrecognizedWord(word: string)
    | UnexpectedToken(actual: TokenKind, actualValue: Option<Int32>, position: nat, expected: TokenKind)

  /** The expression nodes, with the children `getChildren` lists for each. */
  datatype ExpressionNode =
    | Literal(literalToken: Token)
    | Unary(operatorToken: Token, operand: ExpressionNode)
    | Binary(left: ExpressionNode, operatorToken: Token, right: ExpressionNode)
    | Parenthesized(open: Token, expression: ExpressionNode, close: Token)

  datatype SyntaxTree = SyntaxTree(root: ExpressionNode, eofToken: Token, diagnostics: seq<Diagnostic>)

  /**
    The tokens met by walking `getChildren` depth first, left to right: a
    binary node lists `[left, operator, right]`, a unary one `[operator,
    operand]`, a parenthesised one `[open, expression, close]`.
   */
  function Leaves(node: ExpressionNode): seq<Token>
  {
    match node
    case Literal(t) => [t]
    case Unary(op, e) => [op] + Leaves(e)
    case Binary(l, op, r) => Leaves(l) + [op] + Leaves(r)
    case Parenthesized(o, e, c) => [o] + Leaves(e) + [c]
  }
}
