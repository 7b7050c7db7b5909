/** The classic pipeline's `SyntaxRules`: one precedence table for its four operators. */
module ClassicRules {
  import opened ClassicTokens

  /** `getBinaryOperatorPrecedence`: `* /` 2, `+ -` 1, 0 (not an operator) otherwise. */
  function BinaryOperatorPrecedence(kind: TokenKind): (p: nat)
    ensures p == 2 <==> kind == Times || kind == Slash
    ensures p == 1 <==> kind == Plus || kind == Minus
    ensures p == 0 <==> (kind != Times && kind != Slash && kind != Plus && kind != Minus)
  {
    match kind
    case Times | Slash => 2
    case Plus | Minus => 1
    case _ => 0
  }

  /** The operator sets of `parseFactor` and `parseTerms`. */
  predicate IsFactorOperator(kind: TokenKind)
  {
    kind == Times || kind == Slash
  }

  predicate IsTermOperator(kind: TokenKind)
  {
    kind == Plus || kind == Minus
  }

  /**
    The parser does not consult the table, but its two loops agree with it:
    `parseFactor` takes exactly the operators of the higher level and
    `parseTerms` exactly those of the lower one, so `*` and `/` bind tighter.
   */
  lemma LoopsFollowPrecedence(k: TokenKind)
    ensures IsFactorOperator(k) <==> BinaryOperatorPrecedence(k) == 2
    ensures IsTermOperator(k) <==> BinaryOperatorPrecedence(k) == 1
    ensures BinaryOperatorPrecedence(Times) > BinaryOperatorPrecedence(Plus) > 0
  {
  }
}
