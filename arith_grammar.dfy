/**
  What the arithmetic pipeline's parser (`arithmeticSyntax/Parser.kt`)
  computes, as functions of the token list, the cursor and the diagnostics
  so far. The `Parser` class in `ArithParser` is proved to agree with them;
  the shape properties of the grammar are proved here.
 */
module ArithGrammar {
  import opened Wrappers
  import opened Slices
  import opened Text
  import opened ArithTokens
  import opened ArithRules

  /** A token list as the parser builds it: one EOF, at the end. */
  predicate WellFormed(ts: seq<Token>)
  {
    |ts| > 0 && ts[|ts| - 1].kind == Eof && forall i :: 0 <= i < |ts| - 1 ==> ts[i].kind != Eof
  }

  /** `peek(0)` with the cursor at `pos`: past the end it is the last token. */
  function PeekAt(ts: seq<Token>, pos: nat): Token
    requires |ts| > 0
  {
    if pos >= |ts| then ts[|ts| - 1] else ts[pos]
  }

  /** The result of `matchToken`: the token it returns, the new cursor, the diagnostics. */
  datatype Matched = Matched(token: Token, next: nat, diagnostics: seq<Diagnostic>)

  /**
    `matchToken(tokenType)`: the current token, consumed, when it has the
    expected kind; otherwise one diagnostic and a NUL token of the expected
    kind at the current token's position, with the cursor left where it was.
   */
  function Match(ts: seq<Token>, pos: nat, expected: TokenKind, ds: seq<Diagnostic>): (m: Matched)
    requires WellFormed(ts) && pos < |ts|
    ensures m.token.kind == expected && m.token.position == ts[pos].position
    ensures m.next == pos + 1 <==> ts[pos].kind == expected
    ensures m.next == pos <==> ts[pos].kind != expected
    ensures ts[pos].kind == expected ==> m.token == ts[pos] && m.diagnostics == ds
    ensures ts[pos].kind != expected ==>
      m.token.value == None &&
      m.diagnostics == ds + [UnexpectedToken(ts[pos].kind, ts[pos].value, ts[pos].position, expected)]
    ensures expected != Eof ==> m.next < |ts|
  {
    var current := PeekAt(ts, pos);
    if current.kind == expected then
      Matched(current, pos + 1, ds)
    else
      Matched(Token(expected, current.position, [Nul], None), pos,
              ds + [UnexpectedToken(current.kind, current.value, current.position, expected)])
  }

  /** A parsed subtree, the cursor after it and the diagnostics so far. */
  datatype Parsed = Parsed(node: ExpressionNode, next: nat, diagnostics: seq<Diagnostic>)

  /**
    `parseExpression(parent)`: `getUnaryExpressionSyntaxNode` for a prefix
    operator that does not rank below `parent`, `parsePrimaryExpression`
    otherwise, then the binary operators that outrank `parent`.
   */
  function Expression(ts: seq<Token>, pos: nat, parent: nat, ds: seq<Diagnostic>): (r: Parsed)
    requires WellFormed(ts) && pos < |ts|
    ensures pos <= r.next < |ts|
    ensures |ds| <= |r.diagnostics| && r.diagnostics[..|ds|] == ds
    ensures r.next == pos ==> |r.diagnostics| > |ds|
    decreases |ts| - pos, 2
  {
    var unary := UnaryOperatorPrecedence(PeekAt(ts, pos).kind);
    if unary != 0 && unary >= parent then
      var operand := Expression(ts, pos + 1, unary, ds);
      BinaryTail(ts, operand.next, parent, Unary(ts[pos], operand.node), operand.diagnostics)
    else
      var primary := Primary(ts, pos, ds);
      BinaryTail(ts, primary.next, parent, primary.node, primary.diagnostics)
  }

  /**
    The `while (true)` loop of `parseExpression`, each round being one
    `getBinaryExpressionSyntaxNode`: folds the operators above `parent` onto `left`.
   */
  function BinaryTail(ts: seq<Token>, pos: nat, parent: nat, left: ExpressionNode, ds: seq<Diagnostic>): (r: Parsed)
    requires WellFormed(ts) && pos < |ts|
    ensures pos <= r.next < |ts|
    ensures |ds| <= |r.diagnostics| && r.diagnostics[..|ds|] == ds
    ensures r.next == pos ==> r == Parsed(left, pos, ds)
    decreases |ts| - pos, 1
  {
    var precedence := BinaryOperatorPrecedence(PeekAt(ts, pos).kind);
    if precedence == 0 || precedence <= parent then
      Parsed(left, pos, ds)
    else
      var right := Expression(ts, pos + 1, precedence, ds);
      BinaryTail(ts, right.next, parent, Binary(left, ts[pos], right.node), right.diagnostics)
  }

  /** An expression parsed under `parent` ends before a token that does not bind tighter than `parent`. */
  lemma {:induction false} ExpressionEndsLoose(ts: seq<Token>, pos: nat, parent: nat, ds: seq<Diagnostic>)
    requires WellFormed(ts) && pos < |ts|
    ensures BinaryOperatorPrecedence(ts[Expression(ts, pos, parent, ds).next].kind) <= parent
    decreases |ts| - pos, 2
  {
    var unary := UnaryOperatorPrecedence(PeekAt(ts, pos).kind);
    if unary != 0 && unary >= parent {
      var operand := Expression(ts, pos + 1, unary, ds);
      TailEndsLoose(ts, operand.next, parent, Unary(ts[pos], operand.node), operand.diagnostics);
    } else {
      var primary := Primary(ts, pos, ds);
      TailEndsLoose(ts, primary.next, parent, primary.node, primary.diagnostics);
    }
  }

  /** The operator loop under `parent` ends at a token that does not bind tighter than `parent`. */
  lemma {:induction false} TailEndsLoose(ts: seq<Token>, pos: nat, parent: nat, left: ExpressionNode, ds: seq<Diagnostic>)
    requires WellFormed(ts) && pos < |ts|
    ensures BinaryOperatorPrecedence(ts[BinaryTail(ts, pos, parent, left, ds).next].kind) <= parent
    decreases |ts| - pos, 1
  {
    var precedence := BinaryOperatorPrecedence(PeekAt(ts, pos).kind);
    if precedence == 0 || precedence <= parent {
      assert PeekAt(ts, pos) == ts[pos];
    } else {
      var right := Expression(ts, pos + 1, precedence, ds);
      TailEndsLoose(ts, right.next, parent, Binary(left, ts[pos], right.node), right.diagnostics);
    }
  }

  /** One round of the loop: an operator above `parent` takes the expression after it, parsed at its own precedence. */
  lemma BinaryRound(ts: seq<Token>, pos: nat, parent: nat, left: ExpressionNode, ds: seq<Diagnostic>)
    requires WellFormed(ts) && pos < |ts|
    requires parent < BinaryOperatorPrecedence(ts[pos].kind)
    ensures pos + 1 < |ts|
    ensures var right := Expression(ts, pos + 1, BinaryOperatorPrecedence(ts[pos].kind), ds);
      BinaryTail(ts, pos, parent, left, ds)
        == BinaryTail(ts, right.next, parent, Binary(left, ts[pos], right.node), right.diagnostics)
  {
    assert PeekAt(ts, pos) == ts[pos];
  }

  /** An operator is never the final token, which is EOF. */
  lemma OperatorNotLast(ts: seq<Token>, pos: nat)
    requires WellFormed(ts) && pos < |ts|
    requires UnaryOperatorPrecedence(ts[pos].kind) != 0 || BinaryOperatorPrecedence(ts[pos].kind) != 0
    ensures pos + 1 < |ts|
  {
  }

  /** `BinaryRound` read from its end: `right`, parsed after the operator at `pos`, continues the loop. */
  lemma RoundAfter(ts: seq<Token>, pos: nat, parent: nat, left: ExpressionNode, ds: seq<Diagnostic>, right: Parsed)
    requires WellFormed(ts) && pos + 1 < |ts|
    requires parent < BinaryOperatorPrecedence(ts[pos].kind)
    requires right == Expression(ts, pos + 1, BinaryOperatorPrecedence(ts[pos].kind), ds)
    ensures right.next < |ts|
    ensures BinaryTail(ts, right.next, parent, Binary(left, ts[pos], right.node), right.diagnostics)
      == BinaryTail(ts, pos, parent, left, ds)
  {
    BinaryRound(ts, pos, parent, left, ds);
  }

  /** `ExpressionViaUnary` read from its end: `operand`, parsed after the prefix operator at `pos`, starts the loop. */
  lemma UnaryAfter(ts: seq<Token>, pos: nat, parent: nat, ds: seq<Diagnostic>, operand: Parsed)
    requires WellFormed(ts) && pos + 1 < |ts|
    requires UnaryOperatorPrecedence(ts[pos].kind) != 0 && UnaryOperatorPrecedence(ts[pos].kind) >= parent
    requires operand == Expression(ts, pos + 1, UnaryOperatorPrecedence(ts[pos].kind), ds)
    ensures operand.next < |ts|
    ensures BinaryTail(ts, operand.next, parent, Unary(ts[pos], operand.node), operand.diagnostics)
      == Expression(ts, pos, parent, ds)
  {
    ExpressionViaUnary(ts, pos, parent, ds);
  }

  /** A prefix operator that does not rank below `parent` takes the expression after it at its own precedence. */
  lemma ExpressionViaUnary(ts: seq<Token>, pos: nat, parent: nat, ds: seq<Diagnostic>)
    requires WellFormed(ts) && pos < |ts|
    requires UnaryOperatorPrecedence(ts[pos].kind) != 0 && UnaryOperatorPrecedence(ts[pos].kind) >= parent
    ensures pos + 1 < |ts|
    ensures var operand := Expression(ts, pos + 1, UnaryOperatorPrecedence(ts[pos].kind), ds);
      Expression(ts, pos, parent, ds)
        == BinaryTail(ts, operand.next, parent, Unary(ts[pos], operand.node), operand.diagnostics)
  {
    assert PeekAt(ts, pos) == ts[pos];
  }

  /** Any other token starts a primary, and the loop continues from it. */
  lemma ExpressionViaPrimary(ts: seq<Token>, pos: nat, parent: nat, ds: seq<Diagnostic>)
    requires WellFormed(ts) && pos < |ts|
    requires !(UnaryOperatorPrecedence(ts[pos].kind) != 0 && UnaryOperatorPrecedence(ts[pos].kind) >= parent)
    ensures var primary := Primary(ts, pos, ds);
      Expression(ts, pos, parent, ds) == BinaryTail(ts, primary.next, parent, primary.node, primary.diagnostics)
  {
    assert PeekAt(ts, pos) == ts[pos];
  }

  /**
    `parsePrimaryExpression`: `getParanthesizedExpressionSyntaxNode` on `(`,
    and otherwise `getLiteralExpressionSyntaxNode`, a NUMBER match.
   */
  function Primary(ts: seq<Token>, pos: nat, ds: seq<Diagnostic>): (r: Parsed)
    requires WellFormed(ts) && pos < |ts|
    ensures pos <= r.next < |ts|
    ensures |ds| <= |r.diagnostics| && r.diagnostics[..|ds|] == ds
    ensures r.next == pos ==> |r.diagnostics| > |ds|
    decreases |ts| - pos, 1
  {
    var current := PeekAt(ts, pos);
    if current.kind == OpenParen then
      var expression := Expression(ts, pos + 1, 0, ds);
      var close := Match(ts, expression.next, CloseParen, expression.diagnostics);
      Parsed(Parenthesized(current, expression.node, close.token), close.next, close.diagnostics)
    else
      var number := Match(ts, pos, Number, ds);
      Parsed(Literal(number.token), number.next, number.diagnostics)
  }

  /** `parse`: an expression at precedence 0, then `matchToken(EOF)`. */
  function ParseTokens(ts: seq<Token>, lexDiagnostics: seq<Diagnostic>): (tree: SyntaxTree)
    requires WellFormed(ts)
    ensures tree.eofToken.kind == Eof
    ensures |lexDiagnostics| <= |tree.diagnostics| && tree.diagnostics[..|lexDiagnostics|] == lexDiagnostics
  {
    var expression := Expression(ts, 0, 0, lexDiagnostics);
    var eof := Match(ts, expression.next, Eof, expression.diagnostics);
    SyntaxTree(expression.node, eof.token, eof.diagnostics)
  }

  /**
    A parenthesised primary is `(`, an expression at precedence 0, and a
    required `)`: a missing `)` is reported against the token found instead.
   */
  lemma ParenthesizedPrimary(ts: seq<Token>, pos: nat, ds: seq<Diagnostic>)
    requires WellFormed(ts) && pos < |ts| && ts[pos].kind == OpenParen
    ensures var inner := Expression(ts, pos + 1, 0, ds);
      var r := Primary(ts, pos, ds);
      r.node.Parenthesized? && r.node.open == ts[pos] && r.node.expression == inner.node &&
      (ts[inner.next].kind == CloseParen ==>
        r.node.close == ts[inner.next] && r.next == inner.next + 1 && r.diagnostics == inner.diagnostics) &&
      (ts[inner.next].kind != CloseParen ==>
        r.node.close == Token(CloseParen, ts[inner.next].position, [Nul], None) && r.next == inner.next &&
        r.diagnostics == inner.diagnostics
          + [UnexpectedToken(ts[inner.next].kind, ts[inner.next].value, ts[inner.next].position, CloseParen)])
  {
  }

  /** A token that does not outrank `parent` ends the loop with `left` as it is. */
  lemma TailStops(ts: seq<Token>, pos: nat, parent: nat, left: ExpressionNode, ds: seq<Diagnostic>)
    requires WellFormed(ts) && pos < |ts|
    requires BinaryOperatorPrecedence(ts[pos].kind) <= parent
    ensures BinaryTail(ts, pos, parent, left, ds) == Parsed(left, pos, ds)
  {
    assert PeekAt(ts, pos) == ts[pos];
  }

  /** An expression starting at a NUMBER is that literal followed by the binary operators after it. */
  lemma NumberStartsTail(ts: seq<Token>, pos: nat, parent: nat, ds: seq<Diagnostic>)
    requires WellFormed(ts) && pos + 1 < |ts| && ts[pos].kind == Number
    ensures Expression(ts, pos, parent, ds) == BinaryTail(ts, pos + 1, parent, Literal(ts[pos]), ds)
  {
    assert Primary(ts, pos, ds) == Parsed(Literal(ts[pos]), pos + 1, ds) by {
      assert PeekAt(ts, pos) == ts[pos];
    }
    ExpressionViaPrimary(ts, pos, parent, ds);
  }

  /** A NUMBER followed by an operator that does not outrank `parent` parses as that literal alone. */
  lemma NumberOperand(ts: seq<Token>, pos: nat, parent: nat, ds: seq<Diagnostic>)
    requires WellFormed(ts) && pos + 1 < |ts| && ts[pos].kind == Number
    requires BinaryOperatorPrecedence(ts[pos + 1].kind) <= parent
    ensures Expression(ts, pos, parent, ds) == Parsed(Literal(ts[pos]), pos + 1, ds)
  {
    NumberStartsTail(ts, pos, parent, ds);
    TailStops(ts, pos + 1, parent, Literal(ts[pos]), ds);
  }

  /**
    `a op1 b op2 c`: the second operator nests under the first exactly when it
    has the higher precedence. Equal precedences fold left, `^` included:
    `2 ^ 3 ^ 2` is `(2 ^ 3) ^ 2`, while `2 + 3 * 4` is `2 + (3 * 4)`.
   */
  lemma TwoOperators(a: Token, op1: Token, b: Token, op2: Token, c: Token, eof: Token, ds: seq<Diagnostic>)
    requires a.kind == Number && b.kind == Number && c.kind == Number && eof.kind == Eof
    requires BinaryOperatorPrecedence(op1.kind) != 0 && BinaryOperatorPrecedence(op2.kind) != 0
    ensures var ts := [a, op1, b, op2, c, eof];
      WellFormed(ts) &&
      Expression(ts, 0, 0, ds).next == 5 &&
      Expression(ts, 0, 0, ds).node ==
        if BinaryOperatorPrecedence(op1.kind) < BinaryOperatorPrecedence(op2.kind) then
          Binary(Literal(a), op1, Binary(Literal(b), op2, Literal(c)))
        else
          Binary(Binary(Literal(a), op1, Literal(b)), op2, Literal(c))
  {
    var ts := [a, op1, b, op2, c, eof];
    var p1 := BinaryOperatorPrecedence(op1.kind);
    var p2 := BinaryOperatorPrecedence(op2.kind);
    assert Primary(ts, 0, ds) == Parsed(Literal(a), 1, ds);
    NumberOperand(ts, 4, p2, ds);
    if p1 < p2 {
      assert Primary(ts, 2, ds) == Parsed(Literal(b), 3, ds);
      assert BinaryTail(ts, 3, p1, Literal(b), ds) == Parsed(Binary(Literal(b), op2, Literal(c)), 5, ds);
      assert Expression(ts, 2, p1, ds) == Parsed(Binary(Literal(b), op2, Literal(c)), 5, ds);
    } else {
      NumberOperand(ts, 2, p1, ds);
      assert BinaryTail(ts, 3, 0, Binary(Literal(a), op1, Literal(b)), ds)
        == Parsed(Binary(Binary(Literal(a), op1, Literal(b)), op2, Literal(c)), 5, ds);
    }
  }

  /**
    `u a op c`, a prefix operator before a binary one: the binary operator
    goes inside the prefix operand exactly when it outranks the prefix.
    So `-2 ^ 2` is `(-2) ^ 2`, since `-` (10) outranks `^` (8), while
    `sqrt 4 ^ 2` is `sqrt (4 ^ 2)` and `sqrt 4 * 2` is `(sqrt 4) * 2`.
   */
  lemma PrefixThenBinary(u: Token, a: Token, op: Token, c: Token, eof: Token, ds: seq<Diagnostic>)
    requires UnaryOperatorPrecedence(u.kind) != 0 && BinaryOperatorPrecedence(op.kind) != 0
    requires a.kind == Number && c.kind == Number && eof.kind == Eof
    ensures var ts := [u, a, op, c, eof];
      WellFormed(ts) &&
      Expression(ts, 0, 0, ds) ==
        if BinaryOperatorPrecedence(op.kind) > UnaryOperatorPrecedence(u.kind) then
          Parsed(Unary(u, Binary(Literal(a), op, Literal(c))), 4, ds)
        else
          Parsed(Binary(Unary(u, Literal(a)), op, Literal(c)), 4, ds)
  {
    var ts := [u, a, op, c, eof];
    var pu := UnaryOperatorPrecedence(u.kind);
    var pb := BinaryOperatorPrecedence(op.kind);
    NumberOperand(ts, 3, pb, ds);
    if pb > pu {
      assert Primary(ts, 1, ds) == Parsed(Literal(a), 2, ds);
      assert BinaryTail(ts, 2, pu, Literal(a), ds) == Parsed(Binary(Literal(a), op, Literal(c)), 4, ds);
      assert Expression(ts, 1, pu, ds) == Parsed(Binary(Literal(a), op, Literal(c)), 4, ds);
    } else {
      NumberOperand(ts, 1, pu, ds);
      assert BinaryTail(ts, 2, 0, Unary(u, Literal(a)), ds)
        == Parsed(Binary(Unary(u, Literal(a)), op, Literal(c)), 4, ds);
    }
  }

  /**
    `2 ^ sqrt 4`: `sqrt` (6) ranks below `^` (8), so it cannot start the
    right operand of `^`; that operand falls to a NUMBER match, which fails
    on `sqrt` without consuming it, and `parse` then reports `sqrt` again at
    its closing EOF match.
   */
  lemma PrefixBelowParentRejected(a: Token, op: Token, s: Token, c: Token, eof: Token, ds: seq<Diagnostic>)
    requires a.kind == Number && op.kind == ExponentArrow && s.kind == Sqrt && c.kind == Number && eof.kind == Eof
    ensures var ts := [a, op, s, c, eof];
      var synthetic := Token(Number, s.position, [Nul], None);
      WellFormed(ts) &&
      ParseTokens(ts, ds) == SyntaxTree(
        Binary(Literal(a), op, Literal(synthetic)),
        Token(Eof, s.position, [Nul], None),
        ds + [UnexpectedToken(Sqrt, s.value, s.position, Number), UnexpectedToken(Sqrt, s.value, s.position, Eof)])
  {
    var ts := [a, op, s, c, eof];
    var synthetic := Token(Number, s.position, [Nul], None);
    var d1 := ds + [UnexpectedToken(Sqrt, s.value, s.position, Number)];
    PrefixBelowParentExpression(a, op, s, c, eof, ds);
    assert PeekAt(ts, 2) == s;
  }

  /** The expression part of `PrefixBelowParentRejected`: it stops in front of `sqrt`. */
  lemma PrefixBelowParentExpression(a: Token, op: Token, s: Token, c: Token, eof: Token, ds: seq<Diagnostic>)
    requires a.kind == Number && op.kind == ExponentArrow && s.kind == Sqrt && c.kind == Number && eof.kind == Eof
    ensures var ts := [a, op, s, c, eof];
      var synthetic := Token(Number, s.position, [Nul], None);
      WellFormed(ts) &&
      Expression(ts, 0, 0, ds) == Parsed(Binary(Literal(a), op, Literal(synthetic)), 2,
        ds + [UnexpectedToken(Sqrt, s.value, s.position, Number)])
  {
    var ts := [a, op, s, c, eof];
    assert WellFormed(ts);
    var synthetic := Token(Number, s.position, [Nul], None);
    var d1 := ds + [UnexpectedToken(Sqrt, s.value, s.position, Number)];
    var tree := Binary(Literal(a), op, Literal(synthetic));
    assert Expression(ts, 2, 8, ds) == Parsed(Literal(synthetic), 2, d1) by {
      MissingNumber(ts, 2, 8, ds);
    }
    assert Expression(ts, 0, 0, ds) == BinaryTail(ts, 1, 0, Literal(a), ds) by {
      NumberStartsTail(ts, 0, 0, ds);
    }
    assert BinaryTail(ts, 1, 0, Literal(a), ds) == BinaryTail(ts, 2, 0, tree, d1) by {
      assert ts[1] == op && BinaryOperatorPrecedence(op.kind) == 8;
      BinaryRound(ts, 1, 0, Literal(a), ds);
    }
    assert BinaryTail(ts, 2, 0, tree, d1) == Parsed(tree, 2, d1) by {
      assert ts[2] == s && BinaryOperatorPrecedence(s.kind) == 0;
      TailStops(ts, 2, 0, tree, d1);
    }
  }

  /**
    A token that is neither a NUMBER, `(` nor a prefix operator strong enough
    for `parent` is read as a NUL literal with one diagnostic, without
    moving the cursor.
   */
  lemma MissingNumber(ts: seq<Token>, pos: nat, parent: nat, ds: seq<Diagnostic>)
    requires WellFormed(ts) && pos < |ts|
    requires ts[pos].kind != Number && ts[pos].kind != OpenParen
    requires BinaryOperatorPrecedence(ts[pos].kind) <= parent
    requires !(UnaryOperatorPrecedence(ts[pos].kind) != 0 && UnaryOperatorPrecedence(ts[pos].kind) >= parent)
    ensures var t := ts[pos];
      Expression(ts, pos, parent, ds) ==
        Parsed(Literal(Token(Number, t.position, [Nul], None)), pos, ds + [UnexpectedToken(t.kind, t.value, t.position, Number)])
  {
    var t := ts[pos];
    var synthetic := Token(Number, t.position, [Nul], None);
    var d1 := ds + [UnexpectedToken(t.kind, t.value, t.position, Number)];
    assert Primary(ts, pos, ds) == Parsed(Literal(synthetic), pos, d1) by {
      assert PeekAt(ts, pos) == t;
    }
    ExpressionViaPrimary(ts, pos, parent, ds);
    TailStops(ts, pos, parent, Literal(synthetic), d1);
  }

  /**
    Tokens the expression leaves unread are reported by the closing
    `matchToken(EOF)`, against the first of them; when none are left, that
    match adds nothing.
   */
  lemma LeftoverTokensDiagnosed(ts: seq<Token>, lexDiagnostics: seq<Diagnostic>)
    requires WellFormed(ts)
    ensures var e := Expression(ts, 0, 0, lexDiagnostics);
      var tree := ParseTokens(ts, lexDiagnostics);
      (e.next < |ts| - 1 ==>
        tree.diagnostics == e.diagnostics
          + [UnexpectedToken(ts[e.next].kind, ts[e.next].value, ts[e.next].position, Eof)]) &&
      (e.next == |ts| - 1 ==> tree.diagnostics == e.diagnostics)
  {
  }

  /**
    Without a failed match, the leaves of the expression parsed from `pos`
    are exactly the tokens it consumed.
   */
  lemma {:induction false} ExpressionLeaves(ts: seq<Token>, pos: nat, parent: nat, ds: seq<Diagnostic>)
    requires WellFormed(ts) && pos < |ts|
    ensures var r := Expression(ts, pos, parent, ds);
      r.diagnostics == ds ==> Leaves(r.node) == ts[pos..r.next]
    decreases |ts| - pos, 3
  {
    var unary := UnaryOperatorPrecedence(PeekAt(ts, pos).kind);
    if unary != 0 && unary >= parent {
      UnaryLeaves(ts, pos, parent, ds);
    } else {
      PrimaryTailLeaves(ts, pos, parent, ds);
    }
  }

  lemma {:induction false} UnaryLeaves(ts: seq<Token>, pos: nat, parent: nat, ds: seq<Diagnostic>)
    requires WellFormed(ts) && pos < |ts|
    requires var unary := UnaryOperatorPrecedence(ts[pos].kind); unary != 0 && unary >= parent
    ensures var r := Expression(ts, pos, parent, ds);
      r.diagnostics == ds ==> Leaves(r.node) == ts[pos..r.next]
    decreases |ts| - pos, 2
  {
    var r := Expression(ts, pos, parent, ds);
    var unary := UnaryOperatorPrecedence(ts[pos].kind);
    var operand := Expression(ts, pos + 1, unary, ds);
    var node := Unary(ts[pos], operand.node);
    assert r == BinaryTail(ts, operand.next, parent, node, operand.diagnostics);
    if r.diagnostics == ds {
      Unchanged(ds, operand.diagnostics, r.diagnostics);
      ExpressionLeaves(ts, pos + 1, unary, ds);
      TailLeaves(ts, operand.next, parent, node, ds);
      SliceSplit(ts, pos, pos + 1, operand.next);
      SliceSplit(ts, pos, operand.next, r.next);
      assert ts[pos..pos + 1] == [ts[pos]];
    }
  }

  lemma {:induction false} PrimaryTailLeaves(ts: seq<Token>, pos: nat, parent: nat, ds: seq<Diagnostic>)
    requires WellFormed(ts) && pos < |ts|
    requires var unary := UnaryOperatorPrecedence(ts[pos].kind); !(unary != 0 && unary >= parent)
    ensures var r := Expression(ts, pos, parent, ds);
      r.diagnostics == ds ==> Leaves(r.node) == ts[pos..r.next]
    decreases |ts| - pos, 2
  {
    var r := Expression(ts, pos, parent, ds);
    var primary := Primary(ts, pos, ds);
    assert r == BinaryTail(ts, primary.next, parent, primary.node, primary.diagnostics);
    if r.diagnostics == ds {
      Unchanged(ds, primary.diagnostics, r.diagnostics);
      PrimaryLeaves(ts, pos, ds);
      TailLeaves(ts, primary.next, parent, primary.node, ds);
      SliceSplit(ts, pos, primary.next, r.next);
    }
  }

  lemma {:induction false} TailLeaves(ts: seq<Token>, pos: nat, parent: nat, left: ExpressionNode, ds: seq<Diagnostic>)
    requires WellFormed(ts) && pos < |ts|
    ensures var r := BinaryTail(ts, pos, parent, left, ds);
      r.diagnostics == ds ==> Leaves(r.node) == Leaves(left) + ts[pos..r.next]
    decreases |ts| - pos, 1
  {
    var r := BinaryTail(ts, pos, parent, left, ds);
    var precedence := BinaryOperatorPrecedence(PeekAt(ts, pos).kind);
    if precedence == 0 || precedence <= parent {
      assert r == Parsed(left, pos, ds);
      assert Leaves(left) + ts[pos..pos] == Leaves(left);
    } else if r.diagnostics == ds {
      assert PeekAt(ts, pos) == ts[pos];
      var right := Expression(ts, pos + 1, precedence, ds);
      var node := Binary(left, ts[pos], right.node);
      assert r == BinaryTail(ts, right.next, parent, node, right.diagnostics) by {
        BinaryRound(ts, pos, parent, left, ds);
      }
      assert right.diagnostics == ds by {
        Unchanged(ds, right.diagnostics, r.diagnostics);
      }
      assert Leaves(right.node) == ts[pos + 1..right.next] by {
        ExpressionLeaves(ts, pos + 1, precedence, ds);
      }
      assert Leaves(r.node) == Leaves(node) + ts[right.next..r.next] by {
        TailLeaves(ts, right.next, parent, node, ds);
      }
      FoldSplice(ts, pos, right.next, r.next, Leaves(left), Leaves(right.node), Leaves(r.node));
    }
  }

  lemma {:induction false} PrimaryLeaves(ts: seq<Token>, pos: nat, ds: seq<Diagnostic>)
    requires WellFormed(ts) && pos < |ts|
    ensures var r := Primary(ts, pos, ds);
      r.diagnostics == ds ==> Leaves(r.node) == ts[pos..r.next]
    decreases |ts| - pos, 1
  {
    var r := Primary(ts, pos, ds);
    if r.diagnostics == ds && ts[pos].kind == OpenParen {
      assert PeekAt(ts, pos) == ts[pos];
      var expression := Expression(ts, pos + 1, 0, ds);
      var close := Match(ts, expression.next, CloseParen, expression.diagnostics);
      assert r == Parsed(Parenthesized(ts[pos], expression.node, close.token), close.next, close.diagnostics);
      assert expression.diagnostics == ds by {
        Unchanged(ds, expression.diagnostics, r.diagnostics);
      }
      assert close.token == ts[expression.next] && close.next == expression.next + 1;
      assert Leaves(expression.node) == ts[pos + 1..expression.next] by {
        ExpressionLeaves(ts, pos + 1, 0, ds);
      }
      assert Leaves(r.node) == [ts[pos]] + Leaves(expression.node) + [ts[expression.next]];
      ParenSplice(ts, pos, expression.next, Leaves(expression.node), Leaves(r.node));
    } else if r.diagnostics == ds {
      assert ts[pos..r.next] == [ts[pos]];
    }
  }

  /**
    When `parse` adds no diagnostic, reading the tree's leaves left to right
    through `getChildren` gives back every token of the list but the EOF.
   */
  lemma TreeLeavesAreTokens(ts: seq<Token>, lexDiagnostics: seq<Diagnostic>)
    requires WellFormed(ts)
    ensures var tree := ParseTokens(ts, lexDiagnostics);
      tree.diagnostics == lexDiagnostics ==> Leaves(tree.root) == ts[..|ts| - 1]
  {
    var e := Expression(ts, 0, 0, lexDiagnostics);
    var tree := ParseTokens(ts, lexDiagnostics);
    if tree.diagnostics == lexDiagnostics {
      Unchanged(lexDiagnostics, e.diagnostics, tree.diagnostics);
      ExpressionLeaves(ts, 0, 0, lexDiagnostics);
      assert e.next == |ts| - 1;
    }
  }
}
