/**
  The arithmetic pipeline's `Evaluator` (`arithmeticSyntax/Evaluator.kt`): a
  tree walk straight over syntax nodes with Kotlin's 32-bit `Int` arithmetic.
  The `^` branch computes through `Double.pow`; floating point is not
  modelled, so that branch applies a function given as a parameter.
 */
module ArithEvaluation {
  import opened Wrappers
  import opened KotlinInt
  import opened ArithTokens
  import opened ArithRules
  import opened ArithGrammar

  /** The exceptions `evaluateExpression` can throw. */
  datatype EvalFault =
    /** `literalToken.value as Int` on a token without a value (a synthetic or unrepresentable NUMBER). */
    | NullCast
    /** "Unexpected unary operator", thrown for SQR and SQRT. */
    | UnexpectedUnaryOperator(text: string)
    /** "Unexpected binary operator", for an operator token no branch handles. */
    | UnexpectedBinaryOperator(text: string)
    /** Kotlin's `ArithmeticException` for `/` or `%` by zero. */
    | DivisionByZero

  /** `left.toDouble().pow(right).toInt()`, left to the caller. */
  type Power = (Int32, Int32) -> Int32

  /** The operator `when` of a unary node, applied to the operand's value. */
  function ApplyUnary(operatorToken: Token, operand: Int32): (r: Result<Int32, EvalFault>)
    ensures r.Success? <==> operatorToken.kind == Plus || operatorToken.kind == Minus
    ensures r.Failure? ==> r.error == UnexpectedUnaryOperator(operatorToken.text)
    ensures operatorToken.kind == Plus ==> r == Success(operand)
    ensures operatorToken.kind == Minus ==> r.Success? && Congruent(r.value, -(operand as int))
  {
    match operatorToken.kind
    case Plus => Success(operand)
    case Minus => Success(Negate(operand))
    case _ => Failure(UnexpectedUnaryOperator(operatorToken.text))
  }

  /** The operators `evaluateExpression` has a branch for. */
  predicate EvaluatedBinary(kind: TokenKind)
  {
    kind in {Plus, Minus, Times, Slash, Modulo, ExponentArrow}
  }

  /** The operator `when` of a binary node, applied to the two values already computed. */
  function ApplyBinary(operatorToken: Token, left: Int32, right: Int32, pow: Power): (r: Result<Int32, EvalFault>)
    ensures r.Failure? <==>
      !EvaluatedBinary(operatorToken.kind) || ((operatorToken.kind == Slash || operatorToken.kind == Modulo) && right == 0)
    ensures r.Failure? && EvaluatedBinary(operatorToken.kind) ==> r.error == DivisionByZero
    ensures !EvaluatedBinary(operatorToken.kind) ==> r.error == UnexpectedBinaryOperator(operatorToken.text)
    ensures operatorToken.kind == Plus ==> Congruent(r.value, left + right)
    ensures operatorToken.kind == Minus ==> Congruent(r.value, left - right)
    ensures operatorToken.kind == Times ==> Congruent(r.value, left * right)
    ensures operatorToken.kind == ExponentArrow ==> r.value == pow(left, right)
  {
    match operatorToken.kind
    case Plus => Success(Add(left, right))
    case Minus => Success(Subtract(left, right))
    case Times => Success(Multiply(left, right))
    case Slash => if right == 0 then Failure(DivisionByZero) else Success(Divide(left, right))
    case Modulo => if right == 0 then Failure(DivisionByZero) else Success(Remainder(left, right))
    case ExponentArrow => Success(pow(left, right))
    case _ => Failure(UnexpectedBinaryOperator(operatorToken.text))
  }

  /**
    `/` rounds toward zero and `%` is what it leaves, with the dividend's
    sign; the one quotient that does not fit, `Int.MIN_VALUE / -1`, wraps to
    `Int.MIN_VALUE` with remainder 0.
   */
  lemma QuotientAndRemainder(slash: Token, modulo: Token, a: Int32, b: Int32, pow: Power)
    requires slash.kind == Slash && modulo.kind == Modulo && b != 0
    ensures var q, r := ApplyBinary(slash, a, b, pow), ApplyBinary(modulo, a, b, pow);
      q.Success? && r.Success? &&
      Abs(r.value) < Abs(b) && (r.value != 0 ==> (r.value < 0 <==> a < 0)) &&
      if a == MinInt && b == -1 then
        q.value == MinInt && r.value == 0
      else
        a == q.value * b + r.value && Abs(q.value) == Abs(a) / Abs(b)
  {
    if a == MinInt && b == -1 {
      assert TruncDiv(a, b) == Modulus / 2;
      assert TruncRem(a, b) == 0;
    } else {
      QuotientFits(a, b);
    }
  }

  /** Apart from `Int.MIN_VALUE / -1`, a truncated quotient of two `Int`s is an `Int`. */
  lemma QuotientFits(a: Int32, b: Int32)
    requires b != 0 && !(a == MinInt && b == -1)
    ensures MinInt <= TruncDiv(a, b) <= MaxInt
  {
    var n, d := Abs(a), Abs(b);
    var m := n / d;
    assert Abs(TruncDiv(a, b)) == m;
    NatDivision(n, d);
    if d == 1 {
      assert m == n;
      assert a != MinInt || b == 1;
    } else {
      DoubleAtMost(m, d);
      assert m * 2 <= n <= Modulus / 2;
    }
  }

  lemma DoubleAtMost(m: nat, d: nat)
    requires d >= 2
    ensures m * 2 <= m * d
  {
  }

  /**
    `evaluateExpression`: a literal is its token's value; a unary node
    applies its operator to its operand's value; a binary node evaluates its
    left operand, then its right, and only then applies its operator; a
    parenthesised node is its inner expression. The first exception met in
    that order is the result.
   */
  function EvaluateExpression(node: ExpressionNode, pow: Power): Result<Int32, EvalFault>
  {
    match node
    case Literal(t) => if t.value.Some? then Success(t.value.value) else Failure(NullCast)
    case Unary(op, e) =>
      (match EvaluateExpression(e, pow)
       case Failure(f) => Failure(f)
       case Success(v) => ApplyUnary(op, v))
    case Binary(l, op, r) =>
      (match EvaluateExpression(l, pow)
       case Failure(f) => Failure(f)
       case Success(a) =>
         match EvaluateExpression(r, pow)
         case Failure(f) => Failure(f)
         case Success(b) => ApplyBinary(op, a, b, pow))
    case Parenthesized(_, e, _) => EvaluateExpression(e, pow)
  }

  /** No node of the tree, its root included, is a parenthesised node. */
  predicate NoParentheses(node: ExpressionNode)
  {
    match node
    case Literal(_) => true
    case Unary(_, e) => NoParentheses(e)
    case Binary(l, _, r) => NoParentheses(l) && NoParentheses(r)
    case Parenthesized(_, _, _) => false
  }

  /** `node` with every parenthesised node replaced by its inner expression. */
  function StripParentheses(node: ExpressionNode): (r: ExpressionNode)
    ensures NoParentheses(r)
    ensures NoParentheses(node) ==> r == node
  {
    match node
    case Literal(_) => node
    case Unary(op, e) => Unary(op, StripParentheses(e))
    case Binary(l, op, r) => Binary(StripParentheses(l), op, StripParentheses(r))
    case Parenthesized(_, e, _) => StripParentheses(e)
  }

  /** Parentheses are transparent: removing all of them changes neither a value nor a fault. */
  lemma {:induction false} ParenthesesTransparent(node: ExpressionNode, pow: Power)
    ensures EvaluateExpression(StripParentheses(node), pow) == EvaluateExpression(node, pow)
  {
    match node
    case Literal(_) =>
    case Unary(_, e) => ParenthesesTransparent(e, pow);
    case Binary(l, _, r) =>
      ParenthesesTransparent(l, pow);
      ParenthesesTransparent(r, pow);
    case Parenthesized(_, e, _) => ParenthesesTransparent(e, pow);
  }

  /**
    The trees `evaluateExpression` has a branch for throughout: every literal
    has a value, every prefix is `+` or `-`, every binary operator is one of
    `+ - * / % ^`.
   */
  predicate Supported(node: ExpressionNode)
  {
    match node
    case Literal(t) => t.value.Some?
    case Unary(op, e) => (op.kind == Plus || op.kind == Minus) && Supported(e)
    case Binary(l, op, r) => EvaluatedBinary(op.kind) && Supported(l) && Supported(r)
    case Parenthesized(_, e, _) => Supported(e)
  }

  /**
    Every operand is evaluated before any operator is applied, so a value
    comes back only from a supported tree, and a supported tree can only
    throw for a division by zero.
   */
  lemma {:induction false} EvaluationNeedsSupport(node: ExpressionNode, pow: Power)
    ensures EvaluateExpression(node, pow).Success? ==> Supported(node)
    ensures Supported(node) ==>
      EvaluateExpression(node, pow).Success? || EvaluateExpression(node, pow) == Failure(DivisionByZero)
  {
    match node
    case Literal(_) =>
    case Unary(_, e) => EvaluationNeedsSupport(e, pow);
    case Binary(l, _, r) =>
      EvaluationNeedsSupport(l, pow);
      EvaluationNeedsSupport(r, pow);
    case Parenthesized(_, e, _) => EvaluationNeedsSupport(e, pow);
  }

  /** Trees with `+`/`-` prefixes and `+ - *` only, whose literals all have values. */
  predicate RingOnly(node: ExpressionNode)
  {
    match node
    case Literal(t) => t.value.Some?
    case Unary(op, e) => (op.kind == Plus || op.kind == Minus) && RingOnly(e)
    case Binary(l, op, r) => (op.kind == Plus || op.kind == Minus || op.kind == Times) && RingOnly(l) && RingOnly(r)
    case Parenthesized(_, e, _) => RingOnly(e)
  }

  /** The value of a `RingOnly` tree over the unbounded integers: a reference free of 32-bit arithmetic. */
  function ExactValue(node: ExpressionNode): int
    requires RingOnly(node)
  {
    match node
    case Literal(t) => t.value.value
    case Unary(op, e) => if op.kind == Plus then ExactValue(e) else -ExactValue(e)
    case Binary(l, op, r) => ExactOperation(op.kind, ExactValue(l), ExactValue(r))
    case Parenthesized(_, e, _) => ExactValue(e)
  }

  /** `+`, `-` and `*` over the unbounded integers. */
  function ExactOperation(kind: TokenKind, x: int, y: int): int
    requires kind == Plus || kind == Minus || kind == Times
  {
    match kind
    case Plus => x + y
    case Minus => x - y
    case Times => x * y
  }

  /**
    Evaluating a `RingOnly` tree gives its exact integer value wrapped to 32
    bits: overflow anywhere inside is the same as one wrap at the end.
   */
  lemma {:induction false} EvaluationWrapsExactValue(node: ExpressionNode, pow: Power)
    requires RingOnly(node)
    ensures EvaluateExpression(node, pow) == Success(Wrap(ExactValue(node)))
  {
    match node
    case Literal(_) =>
    case Unary(op, e) =>
      EvaluationWrapsExactValue(e, pow);
      if op.kind == Minus {
        WrapNegate(ExactValue(e));
      }
    case Binary(l, op, r) =>
      EvaluationWrapsExactValue(l, pow);
      EvaluationWrapsExactValue(r, pow);
      ArithmeticWraps(op, ExactValue(l), ExactValue(r), pow);
    case Parenthesized(_, e, _) =>
      EvaluationWrapsExactValue(e, pow);
  }

  /** A 32-bit `+`, `-` or `*` of wrapped operands is the wrapped exact result. */
  lemma ArithmeticWraps(op: Token, x: int, y: int, pow: Power)
    requires op.kind == Plus || op.kind == Minus || op.kind == Times
    ensures ApplyBinary(op, Wrap(x), Wrap(y), pow) == Success(Wrap(ExactOperation(op.kind, x, y)))
  {
    match op.kind
    case Plus => WrapAdd(x, y);
    case Minus => WrapSubtract(x, y);
    case Times => WrapMultiply(x, y);
  }

  /**
    `-2 ^ 2` parses as `(-2) ^ 2`, so it evaluates to the power of -2, not to
    the negated power of 2.
   */
  lemma NegatedBaseOfPower(minus: Token, two: Token, caret: Token, two': Token, eof: Token, pow: Power)
    requires minus.kind == Minus && caret.kind == ExponentArrow && eof.kind == Eof
    requires two.kind == Number && two.value == Some(2) && two'.kind == Number && two'.value == Some(2)
    ensures var ts := [minus, two, caret, two', eof];
      WellFormed(ts) && ParseTokens(ts, []).diagnostics == [] &&
      EvaluateExpression(ParseTokens(ts, []).root, pow) == Success(pow(-2, 2))
  {
    var ts := [minus, two, caret, two', eof];
    PrefixThenBinary(minus, two, caret, two', eof, []);
    var root := Binary(Unary(minus, Literal(two)), caret, Literal(two'));
    assert ParseTokens(ts, []) == SyntaxTree(root, eof, []);
    assert EvaluateExpression(Literal(two), pow) == Success(2);
    assert Negate(2) == -2;
    assert EvaluateExpression(Unary(minus, Literal(two)), pow) == Success(-2);
  }

  /**
    `2 ^ sqrt 4` parses with a synthetic NUMBER in place of `sqrt`; that
    literal has no value, so evaluating the tree throws at its cast.
   */
  lemma RejectedOperandHasNoValue(a: Token, caret: Token, s: Token, four: Token, eof: Token, pow: Power)
    requires a.kind == Number && a.value.Some? && caret.kind == ExponentArrow && s.kind == Sqrt
    requires four.kind == Number && eof.kind == Eof
    ensures var ts := [a, caret, s, four, eof];
      WellFormed(ts) && EvaluateExpression(ParseTokens(ts, []).root, pow) == Failure(NullCast)
  {
    PrefixBelowParentRejected(a, caret, s, four, eof, []);
  }

  /** The left operand's exception comes first: `sqrt 4 / 0` throws for `sqrt` and never reaches the division. */
  lemma UnaryFaultBeforeDivision(sqrt: Token, four: Token, slash: Token, zero: Token, pow: Power)
    requires sqrt.kind == Sqrt && slash.kind == Slash
    requires four.value == Some(4) && zero.value == Some(0)
    ensures EvaluateExpression(Binary(Unary(sqrt, Literal(four)), slash, Literal(zero)), pow)
      == Failure(UnexpectedUnaryOperator(sqrt.text))
  {
    assert EvaluateExpression(Literal(four), pow) == Success(4);
  }

  /** `4 / 0 + sqrt 4` throws for the division and never reaches `sqrt`. */
  lemma DivisionFaultBeforeUnary(four: Token, slash: Token, zero: Token, plus: Token, sqrt: Token, pow: Power)
    requires sqrt.kind == Sqrt && slash.kind == Slash && plus.kind == Plus
    requires four.value == Some(4) && zero.value == Some(0)
    ensures EvaluateExpression(Binary(Binary(Literal(four), slash, Literal(zero)), plus, Unary(sqrt, Literal(four))), pow)
      == Failure(DivisionByZero)
  {
    DivisionByZeroFaults(four, slash, zero, pow);
  }

  /** `x / 0` throws whatever `x` is. */
  lemma DivisionByZeroFaults(x: Token, slash: Token, zero: Token, pow: Power)
    requires slash.kind == Slash && x.value.Some? && zero.value == Some(0)
    ensures EvaluateExpression(Binary(Literal(x), slash, Literal(zero)), pow) == Failure(DivisionByZero)
  {
    assert EvaluateExpression(Literal(zero), pow) == Success(0);
  }
}
