/**
  The typed pipeline's `Evaluator` (`codeAnalysis/Evaluator.kt`): a
  tree walk over bound nodes with Kotlin's 32-bit `Int` arithmetic, whose
  `as Int` / `as Boolean` casts and integer division can throw.
 */
module Evaluation {
  import opened Wrappers
  import opened KotlinInt
  import opened SyntaxTokens
  import opened Binding

  /** The exceptions evaluation can throw. */
  datatype EvalFault =
    /** An `as Int` or `as Boolean` cast on a value of the other class. */
    | ClassCast
    /** Kotlin's `ArithmeticException` for an integer division by zero. */
    | DivisionByZero

  /** The operator `when` of a binary node, applied to the two values already computed. */
  function ApplyBinary(operator: BinaryOperatorKind, left: Value, right: Value): (r: Result<Value, EvalFault>)
    ensures r.Success? && operator in {Addition, Subtraction, Multiplication, Division} ==> r.value.IntValue?
    ensures r.Success? && operator in {LogicalAnd, LogicalOr} ==> r.value.BoolValue?
    ensures operator in {Addition, Subtraction, Multiplication, Division} ==>
      (r == Failure(ClassCast) <==> !left.IntValue? || !right.IntValue?)
    ensures r == Failure(DivisionByZero) <==>
      operator == Division && left.IntValue? && right.IntValue? && right.i == 0
    ensures operator == Addition && r.Success? ==> Congruent(r.value.i, left.i + right.i)
    ensures operator == Subtraction && r.Success? ==> Congruent(r.value.i, left.i - right.i)
    ensures operator == Multiplication && r.Success? ==> Congruent(r.value.i, left.i * right.i)
    ensures operator == Division && r.Success? ==> Congruent(r.value.i, TruncDiv(left.i, right.i))
    ensures operator == LogicalAnd ==>
      (r.Failure? <==> !left.BoolValue? || (left.b && !right.BoolValue?))
    ensures operator == LogicalOr ==>
      (r.Failure? <==> !left.BoolValue? || (!left.b && !right.BoolValue?))
    ensures operator in {LogicalAnd, LogicalOr} && r.Failure? ==> r.error == ClassCast
    ensures operator == LogicalAnd && r.Success? ==>
      left.BoolValue? && r.value.BoolValue? && (r.value.b <==> left.b && right.BoolValue? && right.b)
    ensures operator == LogicalOr && r.Success? ==>
      left.BoolValue? && r.value.BoolValue? && (r.value.b <==> left.b || (right.BoolValue? && right.b))
  {
    match operator
    case Addition =>
      if left.IntValue? && right.IntValue? then Success(IntValue(Add(left.i, right.i))) else Failure(ClassCast)
    case Subtraction =>
      if left.IntValue? && right.IntValue? then Success(IntValue(Subtract(left.i, right.i))) else Failure(ClassCast)
    case Multiplication =>
      if left.IntValue? && right.IntValue? then Success(IntValue(Multiply(left.i, right.i))) else Failure(ClassCast)
    case Division =>
      if !left.IntValue? || !right.IntValue? then Failure(ClassCast)
      else if right.i == 0 then Failure(DivisionByZero)
      else Success(IntValue(Divide(left.i, right.i)))
    case LogicalAnd =>
      // Kotlin's `&&` casts its right operand only when the left one is `true`.
      if !left.BoolValue? then Failure(ClassCast)
      else if !left.b then Success(BoolValue(false))
      else if right.BoolValue? then Success(right)
      else Failure(ClassCast)
    case LogicalOr =>
      if !left.BoolValue? then Failure(ClassCast)
      else if left.b then Success(BoolValue(true))
      else if right.BoolValue? then Success(right)
      else Failure(ClassCast)
  }

  /** The operator `when` of a unary node, applied to the operand's value. */
  function ApplyUnary(operatorKind: UnaryOperatorKind, operand: Value): (r: Result<Value, EvalFault>)
    ensures r.Failure? <==> (operatorKind == LogicalNegation) != operand.BoolValue?
    ensures r.Failure? ==> r.error == ClassCast
    ensures r.Success? ==> TypeOfValue(r.value) == TypeOfValue(operand)
    ensures operatorKind == Identity && r.Success? ==> r.value == operand
    ensures operatorKind == Negation && r.Success? ==> Congruent(r.value.i, -(operand.i as int))
    ensures operatorKind == LogicalNegation && r.Success? ==> r.value.b == !operand.b
  {
    match operatorKind
    case Identity => if operand.IntValue? then Success(operand) else Failure(ClassCast)
    case Negation => if operand.IntValue? then Success(IntValue(Negate(operand.i))) else Failure(ClassCast)
    case LogicalNegation => if operand.BoolValue? then Success(BoolValue(!operand.b)) else Failure(ClassCast)
  }

  /**
    `evaluateExpression`: a literal is its value; a unary node applies its
    operator to its operand's value; a binary node evaluates its left
    operand, then its right, and only then applies its operator. The first
    exception met in that order is the result.
   */
  function EvaluateExpression(node: BoundNode): Result<Value, EvalFault>
  {
    match node
    case BoundLiteral(v) => Success(v)
    case BoundUnary(k, operand) =>
      (match EvaluateExpression(operand)
       case Failure(f) => Failure(f)
       case Success(v) => ApplyUnary(k, v))
    case BoundBinary(l, k, r) =>
      match EvaluateExpression(l)
      case Failure(f) => Failure(f)
      case Success(a) =>
        match EvaluateExpression(r)
        case Failure(f) => Failure(f)
        case Success(b) => ApplyBinary(k, a, b)
  }

  /**
    A typing of bound trees that checks every operand, unlike the `type`
    field (`TypeOf`), which only follows the leftmost operand.
   */
  function Typing(node: BoundNode): Option<VarType>
  {
    match node
    case BoundLiteral(v) => Some(TypeOfValue(v))
    case BoundUnary(k, operand) =>
      var want := if k == LogicalNegation then BoolType else IntType;
      if Typing(operand) == Some(want) then Some(want) else None
    case BoundBinary(l, k, r) =>
      var want := if k in {LogicalAnd, LogicalOr} then BoolType else IntType;
      if Typing(l) == Some(want) && Typing(r) == Some(want) then Some(want) else None
  }

  /**
    A well-typed tree never throws `ClassCastException`: it evaluates to a
    value of its type, unless a division by zero throws first.
   */
  lemma {:induction false} WellTypedDoesNotCast(node: BoundNode)
    requires Typing(node).Some?
    ensures var r := EvaluateExpression(node);
      (r.Success? && TypeOfValue(r.value) == Typing(node).value) || r == Failure(DivisionByZero)
  {
    match node
    case BoundLiteral(_) =>
    case BoundUnary(_, operand) =>
      WellTypedDoesNotCast(operand);
    case BoundBinary(l, _, r) =>
      WellTypedDoesNotCast(l);
      WellTypedDoesNotCast(r);
  }

  /** Every tree the binder builds is well typed at INT. */
  lemma {:induction false} BoundTreesAreWellTyped(syntax: ExpressionNode, ds: seq<BindDiagnostic>)
    requires Bind(syntax, ds).Bound?
    ensures Typing(Bind(syntax, ds).node) == Some(IntType)
  {
    BindSucceedsExactly(syntax, ds);
    match syntax
    case Literal(_) =>
    case Unary(_, e) =>
      BoundTreesAreWellTyped(e, ds);
      BoundTreesAreInt(e, ds);
    case Binary(l, _, r) =>
      BoundTreesAreWellTyped(l, ds);
      BoundTreesAreInt(l, ds);
      BoundTreesAreWellTyped(r, ds);
      BoundTreesAreInt(r, ds);
  }

  /**
    The exact value of a syntax tree over the unbounded integers, for trees
    with `+`/`-` prefixes and `+ - *` only: a reference independent of
    32-bit arithmetic.
   */
  predicate DivisionFree(syntax: ExpressionNode)
  {
    match syntax
    case Literal(_) => true
    case Unary(op, e) => (op.kind == Plus || op.kind == Minus) && DivisionFree(e)
    case Binary(l, op, r) => (op.kind == Plus || op.kind == Minus || op.kind == Times) && DivisionFree(l) && DivisionFree(r)
    case Parenthesized(_, _, _) => false
  }

  function ExactValue(syntax: ExpressionNode): int
    requires DivisionFree(syntax)
  {
    match syntax
    case Literal(t) => LiteralValue(t)
    case Unary(op, e) => if op.kind == Plus then ExactValue(e) else -ExactValue(e)
    case Binary(l, op, r) => ExactOperation(ExactKind(op.kind), ExactValue(l), ExactValue(r))
  }

  /** The operation a `+`, `-` or `*` token denotes. */
  function ExactKind(kind: TokenKind): BinaryOperatorKind
  {
    if kind == Plus then Addition else if kind == Minus then Subtraction else Multiplication
  }

  /**
    Binding then evaluating a division-free tree gives its exact integer
    value wrapped to 32 bits: overflow anywhere inside is the same as one
    wrap at the end.
   */
  lemma {:induction false} EvaluationWrapsExactValue(syntax: ExpressionNode, ds: seq<BindDiagnostic>)
    requires DivisionFree(syntax)
    ensures Bind(syntax, ds).Bound?
    ensures EvaluateExpression(Bind(syntax, ds).node) == Success(IntValue(Wrap(ExactValue(syntax))))
  {
    BindSucceedsExactly(syntax, ds);
    match syntax
    case Literal(t) =>
    case Unary(op, e) =>
      EvaluationWrapsExactValue(e, ds);
      UnaryWrapsExactValue(op, e, ds);
    case Binary(l, op, r) =>
      EvaluationWrapsExactValue(l, ds);
      BoundTreesAreInt(l, ds);
      EvaluationWrapsExactValue(r, ds);
      BinaryWrapsExactValue(l, op, r, ds);
  }

  /** The prefix step of `EvaluationWrapsExactValue`, given its claim for the operand. */
  lemma UnaryWrapsExactValue(op: Token, e: ExpressionNode, ds: seq<BindDiagnostic>)
    requires DivisionFree(Unary(op, e))
    requires Bind(e, ds).Bound?
    requires EvaluateExpression(Bind(e, ds).node) == Success(IntValue(Wrap(ExactValue(e))))
    ensures Bind(Unary(op, e), ds).Bound?
    ensures EvaluateExpression(Bind(Unary(op, e), ds).node) == Success(IntValue(Wrap(ExactValue(Unary(op, e)))))
  {
    BoundTreesAreInt(e, ds);
    var operand, x := Bind(e, ds).node, ExactValue(e);
    var k := if op.kind == Plus then Identity else Negation;
    assert Bind(Unary(op, e), ds).node == BoundUnary(k, operand);
    assert EvaluateExpression(BoundUnary(k, operand)) == ApplyUnary(k, IntValue(Wrap(x)));
    if op.kind == Minus {
      assert ExactValue(Unary(op, e)) == -x;
      NegationWraps(x);
    } else {
      assert ExactValue(Unary(op, e)) == x;
    }
  }

  /** A 32-bit negation of a wrapped operand is the wrapped exact negation. */
  lemma NegationWraps(x: int)
    ensures ApplyUnary(Negation, IntValue(Wrap(x))) == Success(IntValue(Wrap(-x)))
  {
    WrapNegate(x);
  }

  /** The binary step of `EvaluationWrapsExactValue`, given its claim for both operands. */
  lemma BinaryWrapsExactValue(l: ExpressionNode, op: Token, r: ExpressionNode, ds: seq<BindDiagnostic>)
    requires DivisionFree(Binary(l, op, r))
    requires Bind(l, ds).Bound? && Bind(l, ds).diagnostics == ds && Bind(r, ds).Bound?
    requires EvaluateExpression(Bind(l, ds).node) == Success(IntValue(Wrap(ExactValue(l))))
    requires EvaluateExpression(Bind(r, ds).node) == Success(IntValue(Wrap(ExactValue(r))))
    ensures Bind(Binary(l, op, r), ds).Bound?
    ensures EvaluateExpression(Bind(Binary(l, op, r), ds).node) == Success(IntValue(Wrap(ExactValue(Binary(l, op, r)))))
  {
    var left, right := Bind(l, ds).node, Bind(r, ds).node;
    BoundTreesAreInt(l, ds);
    BoundTreesAreInt(r, ds);
    var x, y := ExactValue(l), ExactValue(r);
    var node := Bind(Binary(l, op, r), ds).node;
    var k := ExactKind(op.kind);
    assert node == BoundBinary(left, k, right);
    assert EvaluateExpression(node) == ApplyBinary(k, IntValue(Wrap(x)), IntValue(Wrap(y)));
    assert ExactValue(Binary(l, op, r)) == ExactOperation(k, x, y);
    ArithmeticWraps(k, x, y);
  }

  /** `+`, `-` and `*` over the unbounded integers. */
  function ExactOperation(k: BinaryOperatorKind, x: int, y: int): int
    requires k in {Addition, Subtraction, Multiplication}
  {
    match k
    case Addition => x + y
    case Subtraction => x - y
    case Multiplication => x * y
  }

  /** A 32-bit `+`, `-` or `*` of wrapped operands is the wrapped exact result. */
  lemma ArithmeticWraps(k: BinaryOperatorKind, x: int, y: int)
    requires k in {Addition, Subtraction, Multiplication}
    ensures ApplyBinary(k, IntValue(Wrap(x)), IntValue(Wrap(y))) == Success(IntValue(Wrap(ExactOperation(k, x, y))))
  {
    match k
    case Addition => WrapAdd(x, y);
    case Subtraction => WrapSubtract(x, y);
    case Multiplication => WrapMultiply(x, y);
  }

  /**
    `&&` and `||` do not short-circuit at the tree level: the right operand is
    always evaluated, so its exception propagates even when the left operand
    alone decides the answer. Only the right operand's cast is skipped.
   */
  lemma NoShortCircuit(l: BoundNode, operator: BinaryOperatorKind, r: BoundNode, f: EvalFault)
    requires operator == LogicalAnd || operator == LogicalOr
    requires EvaluateExpression(l) == Success(BoolValue(operator == LogicalOr))
    ensures EvaluateExpression(r) == Failure(f) ==> EvaluateExpression(BoundBinary(l, operator, r)) == Failure(f)
    ensures EvaluateExpression(r).Success? ==>
      EvaluateExpression(BoundBinary(l, operator, r)) == Success(BoolValue(operator == LogicalOr))
  {
  }

  /** Kotlin's `Int.MIN_VALUE / -1` wraps back to `Int.MIN_VALUE`; `7 / -2` is -3 and `-7 / 0` throws. */
  lemma DivisionExamples()
    ensures ApplyBinary(Division, IntValue(MinInt), IntValue(-1)) == Success(IntValue(MinInt))
    ensures ApplyBinary(Division, IntValue(7), IntValue(-2)) == Success(IntValue(-3))
    ensures ApplyBinary(Division, IntValue(-7), IntValue(0)) == Failure(DivisionByZero)
  {
    assert TruncDiv(MinInt, -1) == Modulus / 2;
    assert TruncDiv(7, -2) == -3;
  }
}
