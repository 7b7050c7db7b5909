/** The operator precedences and the keyword table of the typed pipeline. */
module SyntaxRules {
  import opened SyntaxTokens

  predicate IsUnaryOperator(kind: TokenKind)
  {
    kind == Plus || kind == Minus || kind == Bang
  }

  /** `getUnaryOperatorPrecedence`: 5 for `+`, `-` and `!`, 0 (not unary) otherwise. */
  function UnaryOperatorPrecedence(kind: TokenKind): nat
  {
    if IsUnaryOperator(kind) then 5 else 0
  }

  /** `getBinaryOperatorPrecedence`: `* /` 4, `+ -` 3, `&&` 2, `||` 1, 0 (not binary) otherwise. */
  function BinaryOperatorPrecedence(kind: TokenKind): nat
  {
    match kind
    case Times | Slash => 4
    case Plus | Minus => 3
    case AmpersandDouble => 2
    case PipeDouble => 1
    case _ => 0
  }

  /** Both lookups, both ways round: which kinds get which precedence. */
  lemma PrecedenceTable(kind: TokenKind)
    ensures UnaryOperatorPrecedence(kind) == 5 <==> kind == Plus || kind == Minus || kind == Bang
    ensures UnaryOperatorPrecedence(kind) == 0 <==> !(kind == Plus || kind == Minus || kind == Bang)
    ensures BinaryOperatorPrecedence(kind) == 4 <==> kind == Times || kind == Slash
    ensures BinaryOperatorPrecedence(kind) == 3 <==> kind == Plus || kind == Minus
    ensures BinaryOperatorPrecedence(kind) == 2 <==> kind == AmpersandDouble
    ensures BinaryOperatorPrecedence(kind) == 1 <==> kind == PipeDouble
    ensures BinaryOperatorPrecedence(kind) == 0 <==>
      !(kind == Times || kind == Slash || kind == Plus || kind == Minus || kind == AmpersandDouble || kind == PipeDouble)
  {
  }

  /** `getKeywordKind`: exact, case-sensitive matching of the two keywords. */
  function KeywordKind(text: string): (kind: TokenKind)
    ensures kind == TrueKeyword <==> text == "true"
    ensures kind == FalseKeyword <==> text == "false"
    ensures kind == Identifier <==> text != "true" && text != "false"
  {
    if text == "true" then TrueKeyword
    else if text == "false" then FalseKeyword
    else Identifier
  }

  /** A prefix operator binds tighter than every binary operator. */
  lemma UnaryOutranksBinary(u: TokenKind, b: TokenKind)
    requires UnaryOperatorPrecedence(u) != 0
    ensures UnaryOperatorPrecedence(u) > BinaryOperatorPrecedence(b)
  {
  }

  /** The binary levels, from tightest to loosest: `* /`, then `+ -`, then `&&`, then `||`. */
  lemma BinaryLevels()
    ensures BinaryOperatorPrecedence(Times) == BinaryOperatorPrecedence(Slash)
    ensures BinaryOperatorPrecedence(Plus) == BinaryOperatorPrecedence(Minus)
    ensures BinaryOperatorPrecedence(Slash) > BinaryOperatorPrecedence(Minus)
    ensures BinaryOperatorPrecedence(Minus) > BinaryOperatorPrecedence(AmpersandDouble)
    ensures BinaryOperatorPrecedence(AmpersandDouble) > BinaryOperatorPrecedence(PipeDouble)
    ensures BinaryOperatorPrecedence(PipeDouble) > 0
  {
  }
}
