/**
  The values of the typed pipeline's syntax layer: token kinds, tokens,
  diagnostics and the concrete syntax tree.
 */
module SyntaxTokens {
  import opened Wrappers
  import opened KotlinInt

  /** `TokenType` with the operator and keyword members the tokenizer produces. */
  datatype TokenKind =
    | BadToken | Eof | Whitespace
    | Number
    | Plus | Minus | Times | Slash | OpenParen | CloseParen
    | Bang | AmpersandDouble | PipeDouble
    | FalseKeyword | TrueKeyword
    | Identifier

  /** `SyntaxToken(type, position, text, value)`; only NUMBER tokens carry a value. */
  datatype Token = Token(kind: TokenKind, position: nat, text: string, value: Option<Int32>)

  /** The reports the tokenizer and the parser add to their diagnostics lists. */
  datatype Diagnostic =
    | NumberNotRepresentable(text: string)
    | BadCharacter(character: char, position: nat)
    | UnexpectedToken(actual: TokenKind, actualValue: Option<Int32>, position: nat, expected: TokenKind)

  /** The expression nodes, with the children `getChildren` lists for each. */
  datatype ExpressionNode =
    | Literal(literalToken: Token)
    | Unary(operatorToken: Token, operand: ExpressionNode)
    | Binary(left: ExpressionNode, operatorToken: Token, right: ExpressionNode)
    | Parenthesized(open: Token, expression: ExpressionNode, close: Token)

  /** `SyntaxTree(root, eofToken, diagnostics)`. */
  datatype SyntaxTree = SyntaxTree(root: ExpressionNode, eofToken: Token, diagnostics: seq<Diagnostic>)

  /** The tokens met by walking `getChildren` depth first, left to right. */
  function Leaves(node: ExpressionNode): seq<Token>
  {
    match node
    case Literal(t) => [t]
    case Unary(op, e) => [op] + Leaves(e)
    case Binary(l, op, r) => Leaves(l) + [op] + Leaves(r)
    case Parenthesized(o, e, c) => [o] + Leaves(e) + [c]
  }
}
