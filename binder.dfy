/**
  The typed pipeline's `Binder` (`codeAnalysis/binding/Binder.kt`): it maps a
  concrete syntax tree to a bound tree whose nodes carry operator kinds and
  types, appending to its diagnostics when an operator does not fit its
  operand types. The bound node classes and `utils/VarTypes.kt` are folded in
  as datatypes and the `TypeOf` function.
 */
module Binding {
  import opened Wrappers
  import opened KotlinInt
  import opened SyntaxTokens

  /** `VarType`. */
  datatype VarType = StringType | IntType | DoubleType | CharType | BoolType | NoType

  /** The run-time values a bound literal can hold: a Kotlin `Int` or a `Boolean`. */
  datatype Value = IntValue(i: Int32) | BoolValue(b: bool)

  /** `value::class.simpleName` for the two value classes. */
  function ClassName(v: Value): string
  {
    match v
    case IntValue(_) => "Int"
    case BoolValue(_) => "Boolean"
  }

  /** `varTypesMap`: class names to types. */
  const VarTypes: map<string, VarType> :=
    map["String" := StringType, "Int" := IntType, "Double" := DoubleType, "Char" := CharType, "Boolean" := BoolType]

  /** A literal's type: its class name looked up in `varTypesMap`, `ERR_NO_TYPE` when absent. */
  function TypeOfValue(v: Value): (t: VarType)
    ensures t == IntType <==> v.IntValue?
    ensures t == BoolType <==> v.BoolValue?
  {
    var name := ClassName(v);
    if name in VarTypes then VarTypes[name] else NoType
  }

  datatype UnaryOperatorKind = Identity | Negation | LogicalNegation

  datatype BinaryOperatorKind = Addition | Subtraction | Multiplication | Division | LogicalAnd | LogicalOr

  /** The bound nodes: `BoundLiteralExpressionNode`, `BoundUnaryExpressionNode`, `BoundBinaryExpressionNode`. */
  datatype BoundNode =
    | BoundLiteral(value: Value)
    | BoundUnary(operatorKind: UnaryOperatorKind, operand: BoundNode)
    | BoundBinary(left: BoundNode, operator: BinaryOperatorKind, right: BoundNode)

  /**
    The `type` field of a bound node: a literal's from its value, a unary
    node's from its operand and a binary node's from its left operand alone.
   */
  function TypeOf(node: BoundNode): VarType
  {
    match node
    case BoundLiteral(v) => TypeOfValue(v)
    case BoundUnary(_, operand) => TypeOf(operand)
    case BoundBinary(left, _, _) => TypeOf(left)
  }

  /** The two reports the binder can add (their wording is not modelled). */
  datatype BindDiagnostic =
    | UnaryNotDefined(operatorText: string, operandType: VarType)
    | BinaryNotDefined(operatorText: string, leftType: VarType, rightType: VarType)

  /** The exceptions the binder throws. */
  datatype BindFault =
    /** `bindExpression` met a node other than a literal, unary or binary one: a parenthesised node. */
    | UnexpectedSyntax
    | UnexpectedUnaryOperator(kind: TokenKind)
    | UnexpectedBinaryOperator(kind: TokenKind)

  /**
    `bindUnaryOperatorKind`: no kind (`null`) unless the operand is INT; on an
    INT operand `+` is IDENTITY, `-` is NEGATION and every other token throws.
   */
  function BindUnaryOperatorKind(kind: TokenKind, operandType: VarType): (r: Result<Option<UnaryOperatorKind>, BindFault>)
    ensures operandType != IntType ==> r == Success(None)
    ensures operandType == IntType ==>
      (r == Success(Some(Identity)) <==> kind == Plus) &&
      (r == Success(Some(Negation)) <==> kind == Minus) &&
      (r.Failure? <==> kind != Plus && kind != Minus)
    ensures r.Failure? ==> r.error == UnexpectedUnaryOperator(kind)
  {
    if operandType != IntType then Success(None)
    else if kind == Plus then Success(Some(Identity))
    else if kind == Minus then Success(Some(Negation))
    else Failure(UnexpectedUnaryOperator(kind))
  }

  predicate IsArithmeticOperator(kind: TokenKind)
  {
    kind == Plus || kind == Minus || kind == Times || kind == Slash
  }

  /**
    `bindBinaryOperatorKind`: no kind unless both sides are INT; then `+ - * /`
    map to the four arithmetic kinds and every other token (`&&`, `||`) throws.
   */
  function BindBinaryOperatorKind(kind: TokenKind, leftType: VarType, rightType: VarType)
    : (r: Result<Option<BinaryOperatorKind>, BindFault>)
    ensures leftType != IntType || rightType != IntType ==> r == Success(None)
    ensures leftType == IntType && rightType == IntType ==>
      (r == Success(Some(Addition)) <==> kind == Plus) &&
      (r == Success(Some(Subtraction)) <==> kind == Minus) &&
      (r == Success(Some(Multiplication)) <==> kind == Times) &&
      (r == Success(Some(Division)) <==> kind == Slash) &&
      (r.Failure? <==> !IsArithmeticOperator(kind))
    ensures r.Failure? ==> r.error == UnexpectedBinaryOperator(kind)
  {
    if leftType != IntType || rightType != IntType then Success(None)
    else match kind
      case Plus => Success(Some(Addition))
      case Minus => Success(Some(Subtraction))
      case Times => Success(Some(Multiplication))
      case Slash => Success(Some(Division))
      case _ => Failure(UnexpectedBinaryOperator(kind))
  }

  /** `literalToken.value as Int? ?: 0`: a token without a value, a keyword's included, binds to 0. */
  function LiteralValue(t: Token): (v: Int32)
    ensures t.value.Some? ==> v == t.value.value
    ensures t.value.None? ==> v == 0
  {
    match t.value
    case Some(n) => n
    case None => 0
  }

  /** A finished binding: the bound tree and the diagnostics so far, or the exception thrown. */
  datatype Binding = Bound(node: BoundNode, diagnostics: seq<BindDiagnostic>) | BindFailed(fault: BindFault)

  /** The end of `bindUnaryExpression`, once its operand is bound. */
  function UnaryStep(operatorToken: Token, operand: BoundNode, ds: seq<BindDiagnostic>): (r: Binding)
    ensures TypeOf(operand) != IntType ==>
      r == Bound(operand, ds + [UnaryNotDefined(operatorToken.text, TypeOf(operand))])
    ensures TypeOf(operand) == IntType && r.Bound? ==>
      r.diagnostics == ds && r.node.BoundUnary? && r.node.operand == operand
  {
    match BindUnaryOperatorKind(operatorToken.kind, TypeOf(operand))
    case Failure(f) => BindFailed(f)
    case Success(None) => Bound(operand, ds + [UnaryNotDefined(operatorToken.text, TypeOf(operand))])
    case Success(Some(k)) => Bound(BoundUnary(k, operand), ds)
  }

  /** The end of `bindBinaryExpression`, once both operands are bound. */
  function BinaryStep(left: BoundNode, operatorToken: Token, right: BoundNode, ds: seq<BindDiagnostic>): (r: Binding)
    ensures TypeOf(left) != IntType || TypeOf(right) != IntType ==>
      r == Bound(left, ds + [BinaryNotDefined(operatorToken.text, TypeOf(left), TypeOf(right))])
    ensures TypeOf(left) == IntType && TypeOf(right) == IntType && r.Bound? ==>
      r.diagnostics == ds && r.node.BoundBinary? && r.node.left == left && r.node.right == right
  {
    match BindBinaryOperatorKind(operatorToken.kind, TypeOf(left), TypeOf(right))
    case Failure(f) => BindFailed(f)
    case Success(None) => Bound(left, ds + [BinaryNotDefined(operatorToken.text, TypeOf(left), TypeOf(right))])
    case Success(Some(k)) => Bound(BoundBinary(left, k, right), ds)
  }

  /**
    `bindExpression` on a binder whose diagnostics are `ds`: the operand of a
    unary node, and the left then the right operand of a binary node, are
    bound before the operator; a parenthesised node throws.
   */
  function Bind(syntax: ExpressionNode, ds: seq<BindDiagnostic>): (r: Binding)
    ensures r.Bound? ==> |ds| <= |r.diagnostics| && r.diagnostics[..|ds|] == ds
  {
    match syntax
    case Literal(t) => Bound(BoundLiteral(IntValue(LiteralValue(t))), ds)
    case Unary(op, e) =>
      (match Bind(e, ds)
       case BindFailed(f) => BindFailed(f)
       case Bound(operand, ds1) => UnaryStep(op, operand, ds1))
    case Binary(l, op, r) =>
      (match Bind(l, ds)
       case BindFailed(f) => BindFailed(f)
       case Bound(left, ds1) =>
         match Bind(r, ds1)
         case BindFailed(f) => BindFailed(f)
         case Bound(right, ds2) => BinaryStep(left, op, right, ds2))
    case Parenthesized(_, _, _) => BindFailed(UnexpectedSyntax)
  }

  /**
    Every tree the binder builds has type INT and the binder adds no
    diagnostic: literals only ever hold `Int`s, and unary and binary nodes
    take their type from an operand, so the two "not defined" reports are
    unreachable.
   */
  lemma {:induction false} BoundTreesAreInt(syntax: ExpressionNode, ds: seq<BindDiagnostic>)
    ensures var r := Bind(syntax, ds);
      r.Bound? ==> TypeOf(r.node) == IntType && r.diagnostics == ds
  {
    match syntax
    case Literal(_) =>
    case Unary(_, e) =>
      BoundTreesAreInt(e, ds);
    case Binary(l, _, r) =>
      BoundTreesAreInt(l, ds);
      BoundTreesAreInt(r, ds);
    case Parenthesized(_, _, _) =>
  }

  /** The trees the binder accepts: no parentheses, prefix `+`/`-` only, binary `+ - * /` only. */
  predicate Bindable(syntax: ExpressionNode)
  {
    match syntax
    case Literal(_) => true
    case Unary(op, e) => (op.kind == Plus || op.kind == Minus) && Bindable(e)
    case Binary(l, op, r) => IsArithmeticOperator(op.kind) && Bindable(l) && Bindable(r)
    case Parenthesized(_, _, _) => false
  }

  /**
    Binding succeeds exactly on `Bindable` trees; every other tree throws
    (`!`, `&&`, `||` and parentheses are all rejected by an exception).
   */
  lemma {:induction false} BindSucceedsExactly(syntax: ExpressionNode, ds: seq<BindDiagnostic>)
    ensures Bind(syntax, ds).Bound? <==> Bindable(syntax)
  {
    match syntax
    case Literal(_) =>
    case Unary(_, e) =>
      BindSucceedsExactly(e, ds);
      BoundTreesAreInt(e, ds);
    case Binary(l, _, r) =>
      BindSucceedsExactly(l, ds);
      BoundTreesAreInt(l, ds);
      BindSucceedsExactly(r, ds);
      BoundTreesAreInt(r, ds);
    case Parenthesized(_, _, _) =>
  }

  /**
    The left operand is bound first: an exception in it is the one a binary
    node throws, whatever the right operand and the operator are; the right
    operand's exception comes next, the operator's last.
   */
  lemma LeftBoundFirst(l: ExpressionNode, op: Token, r: ExpressionNode, ds: seq<BindDiagnostic>)
    ensures var b := Bind(Binary(l, op, r), ds);
      (Bind(l, ds).BindFailed? ==> b == Bind(l, ds)) &&
      (Bind(l, ds).Bound? && Bind(r, Bind(l, ds).diagnostics).BindFailed? ==> b == Bind(r, Bind(l, ds).diagnostics))
  {
  }

  /** `Binder`: the bound-tree builder and its `localDiagnostics` list. */
  class Binder {
    var diagnostics: seq<BindDiagnostic>

    constructor()
      ensures diagnostics == []
    {
      diagnostics := [];
    }

    /** `bindExpression`: the tree `Bind` describes, with the diagnostics it leaves. */
    method BindExpression(syntax: ExpressionNode) returns (r: Result<BoundNode, BindFault>)
      modifies this
      ensures match Bind(syntax, old(diagnostics))
        case Bound(n, ds) => r == Success(n) && diagnostics == ds
        case BindFailed(f) => r == Failure(f)
      decreases syntax, 1
    {
      match syntax
      case Literal(_) =>
        var node := BindLiteralExpression(syntax);
        return Success(node);
      case Unary(_, _) =>
        r := BindUnaryExpression(syntax);
      case Binary(_, _, _) =>
        r := BindBinaryExpression(syntax);
      case Parenthesized(_, _, _) =>
        return Failure(UnexpectedSyntax);
    }

    /** `bindLiteralExpression`: an INT literal holding the token's value, or 0 when it has none. */
    method BindLiteralExpression(syntax: ExpressionNode) returns (node: BoundNode)
      requires syntax.Literal?
      ensures node == BoundLiteral(IntValue(LiteralValue(syntax.literalToken)))
      ensures TypeOf(node) == IntType
    {
      var value := if syntax.literalToken.value.Some? then syntax.literalToken.value.value else 0;
      node := BoundLiteral(IntValue(value));
    }

    /** `bindUnaryExpression`. */
    method BindUnaryExpression(syntax: ExpressionNode) returns (r: Result<BoundNode, BindFault>)
      requires syntax.Unary?
      modifies this
      ensures match Bind(syntax, old(diagnostics))
        case Bound(n, ds) => r == Success(n) && diagnostics == ds
        case BindFailed(f) => r == Failure(f)
      decreases syntax, 0
    {
      var boundOperand := BindExpression(syntax.operand);
      if boundOperand.Failure? {
        return Failure(boundOperand.error);
      }
      var operand := boundOperand.value;
      var boundOperatorKind := BindUnaryOperatorKind(syntax.operatorToken.kind, TypeOf(operand));
      if boundOperatorKind.Failure? {
        return Failure(boundOperatorKind.error);
      }
      if boundOperatorKind.value.None? {
        diagnostics := diagnostics + [UnaryNotDefined(syntax.operatorToken.text, TypeOf(operand))];
        return Success(operand);
      }
      return Success(BoundUnary(boundOperatorKind.value.value, operand));
    }

    /** `bindBinaryExpression`: the left operand, then the right, then the operator. */
    method BindBinaryExpression(syntax: ExpressionNode) returns (r: Result<BoundNode, BindFault>)
      requires syntax.Binary?
      modifies this
      ensures match Bind(syntax, old(diagnostics))
        case Bound(n, ds) => r == Success(n) && diagnostics == ds
        case BindFailed(f) => r == Failure(f)
      decreases syntax, 0
    {
      var boundLeft := BindExpression(syntax.left);
      if boundLeft.Failure? {
        return Failure(boundLeft.error);
      }
      var boundRight := BindExpression(syntax.right);
      if boundRight.Failure? {
        return Failure(boundRight.error);
      }
      var left, right := boundLeft.value, boundRight.value;
      var boundOperatorKind := BindBinaryOperatorKind(syntax.operatorToken.kind, TypeOf(left), TypeOf(right));
      if boundOperatorKind.Failure? {
        return Failure(boundOperatorKind.error);
      }
      if boundOperatorKind.value.None? {
        diagnostics := diagnostics + [BinaryNotDefined(syntax.operatorToken.text, TypeOf(left), TypeOf(right))];
        return Success(left);
      }
      return Success(BoundBinary(left, boundOperatorKind.value.value, right));
    }
  }
}
