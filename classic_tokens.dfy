/**
  The values of the classic pipeline (the first `codeAnalysis` iteration,
  `codeAnalysis/Tokenizer.kt` and `codeAnalysis/Parser.kt`): token kinds,
  tokens, diagnostics and the syntax tree, which has no unary nodes.
 */
module ClassicTokens {
  import opened Wrappers
  import opened KotlinInt

  /** The token members of `TokenType`; the node kinds it also lists are the constructors of `ExpressionNode`. */
  datatype TokenKind =
    | Number | Whitespace
    | Plus | Minus | Times | Slash | OpenParen | CloseParen
    | BadToken | Eof

  /** `SyntaxToken(type, position, text, value)`; only NUMBER tokens carry a value. */
  datatype Token = Token(kind: TokenKind, position: nat, text: string, value: Option<Int32>)

  /** The reports the tokenizer and the parser add to their diagnostics lists. */
  datatype Diagnostic =
    | NumberNotRepresentable(text: string)
    | BadCharacter(character: char, position: nat)
    | UnexpectedToken(actual: TokenKind, actualValue: Option<Int32>, position: nat, expected: TokenKind)

  /** The number, binary and parenthesised expression nodes. */
  datatype ExpressionNode =
    | Literal(literalToken: Token)
    | Binary(left: ExpressionNode, operatorToken: Token, right: ExpressionNode)
    | Parenthesized(open: Token, expression: ExpressionNode, close: Token)

  /** `AbstractSyntaxTree(root, eofToken, diagnostics)`. */
  datatype SyntaxTree = SyntaxTree(root: ExpressionNode, eofToken: Token, diagnostics: seq<Diagnostic>)

  /** The tokens met by walking `getChildren` depth first, left to right. */
  function Leaves(node: ExpressionNode): seq<Token>
  {
    match node
    case Literal(t) => [t]
    case Binary(l, op, r) => Leaves(l) + [op] + Leaves(r)
    case Parenthesized(o, e, c) => [o] + Leaves(e) + [c]
  }
}
