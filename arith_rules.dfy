/** The operator precedences of the arithmetic pipeline. */
module ArithRules {
  import opened ArithTokens

  /** `getUnaryOperatorPrecedence`: `+ -` 10, `sqrt sqr` 6, 0 (not unary) otherwise. */
  function UnaryOperatorPrecedence(kind: TokenKind): nat
  {
    match kind
    case Plus | Minus => 10
    case Sqrt | Sqr => 6
    case _ => 0
  }

  /** `getBinaryOperatorPrecedence`: `^` 8, `* / %` 2, `+ -` 1, 0 (not binary) otherwise. */
  function BinaryOperatorPrecedence(kind: TokenKind): nat
  {
    match kind
    case ExponentArrow => 8
    case Times | Slash | Modulo => 2
    case Plus | Minus => 1
    case _ => 0
  }

  /** Which kinds have which precedence, both ways round. */
  lemma PrecedenceTable(kind: TokenKind)
    ensures UnaryOperatorPrecedence(kind) == 10 <==> kind == Plus || kind == Minus
    ensures UnaryOperatorPrecedence(kind) == 6 <==> kind == Sqrt || kind == Sqr
    ensures UnaryOperatorPrecedence(kind) == 0 <==> (kind != Plus && kind != Minus && kind != Sqrt && kind != Sqr)
    ensures BinaryOperatorPrecedence(kind) == 8 <==> kind == ExponentArrow
    ensures BinaryOperatorPrecedence(kind) == 2 <==> (kind == Times || kind == Slash || kind == Modulo)
    ensures BinaryOperatorPrecedence(kind) == 1 <==> kind == Plus || kind == Minus
    ensures BinaryOperatorPrecedence(kind) == 0 <==>
      (kind != ExponentArrow && kind != Times && kind != Slash && kind != Modulo && kind != Plus && kind != Minus)
  {
  }

  /**
    The levels from tightest to loosest: prefix `+`/`-`, then `^`, then the
    prefix words `sqrt`/`sqr`, then `* / %`, then binary `+ -`.
   */
  lemma Ranking(k: TokenKind)
    ensures UnaryOperatorPrecedence(Minus) > BinaryOperatorPrecedence(ExponentArrow)
    ensures BinaryOperatorPrecedence(ExponentArrow) > UnaryOperatorPrecedence(Sqrt)
    ensures UnaryOperatorPrecedence(Sqrt) > BinaryOperatorPrecedence(Times)
    ensures BinaryOperatorPrecedence(Times) > BinaryOperatorPrecedence(Plus) > 0
    ensures UnaryOperatorPrecedence(k) <= 10 && BinaryOperatorPrecedence(k) <= 8
  {
  }
}
