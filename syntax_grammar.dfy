/**
  What the typed pipeline's parser (`codeAnalysis/syntax/Parser.kt`) computes,
  as functions of the token list, the cursor and the diagnostics so far.
  The `Parser` class in `SyntaxParser` is proved to agree with them; the
  shape properties of the grammar are proved here.
 */
module SyntaxGrammar {
  import opened Wrappers
  import opened Slices
  import opened Text
  import opened SyntaxTokens
  import opened SyntaxRules

  /** A token list as the parser builds it: one EOF, at the end. */
  predicate WellFormed(ts: seq<Token>)
  {
    |ts| > 0 && ts[|ts| - 1].kind == Eof && forall i :: 0 <= i < |ts| - 1 ==> ts[i].kind != Eof
  }

  /** `peek(0)` with the cursor at `pos`: past the end it is the last token. */
  function PeekAt(ts: seq<Token>, pos: nat): Token
    requires |ts| > 0
  {
    if pos >= |ts| then ts[|ts| - 1] else ts[pos]
  }

  /** Reading at or past the last index gives the EOF token, and only there. */
  lemma PeekPastEndIsEof(ts: seq<Token>, pos: nat)
    requires WellFormed(ts)
    ensures PeekAt(ts, pos).kind == Eof <==> pos >= |ts| - 1
  {
  }

  /** The result of `matchToken`: the token it returns, the new cursor, the diagnostics. */
  datatype Matched = Matched(token: Token, next: nat, diagnostics: seq<Diagnostic>)

  /**
    `matchToken(expected)`: the current token, consumed, when it has the expected
    kind; otherwise one diagnostic and a NUL token of the expected kind at the
    current token's position, with the cursor left where it was.
   */
  function Match(ts: seq<Token>, pos: nat, expected: TokenKind, ds: seq<Diagnostic>): (m: Matched)
    requires WellFormed(ts) && pos < |ts|
    ensures m.token.kind == expected && m.token.position == ts[pos].position
    ensures m.next == pos + 1 <==> ts[pos].kind == expected
    ensures m.next == pos <==> ts[pos].kind != expected
    ensures ts[pos].kind == expected ==> m.token == ts[pos] && m.diagnostics == ds
    ensures ts[pos].kind != expected ==>
      m.diagnostics == ds + [UnexpectedToken(ts[pos].kind, ts[pos].value, ts[pos].position, expected)]
    ensures expected != Eof ==> m.next < |ts|
  {
    var current := PeekAt(ts, pos);
    if current.kind == expected then
      Matched(current, pos + 1, ds)
    else
      Matched(Token(expected, current.position, [Nul], None), pos,
              ds + [UnexpectedToken(current.kind, current.value, current.position, expected)])
  }

  /** A parsed subtree, the cursor after it and the diagnostics so far. */
  datatype Parsed = Parsed(node: ExpressionNode, next: nat, diagnostics: seq<Diagnostic>)

  /** `parseExpression(parent)`: a prefix operator or a primary, then the binary operators that outrank `parent`. */
  function Expression(ts: seq<Token>, pos: nat, parent: nat, ds: seq<Diagnostic>): (r: Parsed)
    requires WellFormed(ts) && pos < |ts|
    ensures pos <= r.next < |ts|
    ensures |ds| <= |r.diagnostics| && r.diagnostics[..|ds|] == ds
    ensures r.next == pos ==> |r.diagnostics| > |ds|
    decreases |ts| - pos, 2
  {
    var unary := UnaryOperatorPrecedence(PeekAt(ts, pos).kind);
    if unary != 0 && unary >= parent then
      var operand := Expression(ts, pos + 1, unary, ds);
      BinaryTail(ts, operand.next, parent, Unary(ts[pos], operand.node), operand.diagnostics)
    else
      var primary := Primary(ts, pos, ds);
      BinaryTail(ts, primary.next, parent, primary.node, primary.diagnostics)
  }

  /** The `while (true)` loop of `parseExpression`: folds operators above `parent` onto `left`. */
  function BinaryTail(ts: seq<Token>, pos: nat, parent: nat, left: ExpressionNode, ds: seq<Diagnostic>): (r: Parsed)
    requires WellFormed(ts) && pos < |ts|
    ensures pos <= r.next < |ts|
    ensures |ds| <= |r.diagnostics| && r.diagnostics[..|ds|] == ds
    ensures r.next == pos ==> r == Parsed(left, pos, ds)
    decreases |ts| - pos, 1
  {
    var precedence := BinaryOperatorPrecedence(PeekAt(ts, pos).kind);
    if precedence == 0 || precedence <= parent then
      Parsed(left, pos, ds)
    else
      var right := Expression(ts, pos + 1, precedence, ds);
      BinaryTail(ts, right.next, parent, Binary(left, ts[pos], right.node), right.diagnostics)
  }

  /** `parsePrimaryExpression`: a parenthesised expression, a keyword literal, or a NUMBER literal. */
  function Primary(ts: seq<Token>, pos: nat, ds: seq<Diagnostic>): (r: Parsed)
    requires WellFormed(ts) && pos < |ts|
    ensures pos <= r.next < |ts|
    ensures |ds| <= |r.diagnostics| && r.diagnostics[..|ds|] == ds
    ensures r.next == pos ==> |r.diagnostics| > |ds|
    decreases |ts| - pos, 1
  {
    var current := PeekAt(ts, pos);
    if current.kind == OpenParen then
      var expression := Expression(ts, pos + 1, 0, ds);
      var close := Match(ts, expression.next, CloseParen, expression.diagnostics);
      Parsed(Parenthesized(current, expression.node, close.token), close.next, close.diagnostics)
    else if current.kind == FalseKeyword || current.kind == TrueKeyword then
      Parsed(Literal(current), pos + 1, ds)
    else
      var number := Match(ts, pos, Number, ds);
      Parsed(Literal(number.token), number.next, number.diagnostics)
  }

  /** `parse`: an expression at precedence 0, then `matchToken(EOF)`. */
  function ParseTokens(ts: seq<Token>, lexDiagnostics: seq<Diagnostic>): (tree: SyntaxTree)
    requires WellFormed(ts)
    ensures tree.eofToken.kind == Eof
    ensures |lexDiagnostics| <= |tree.diagnostics| && tree.diagnostics[..|lexDiagnostics|] == lexDiagnostics
  {
    var expression := Expression(ts, 0, 0, lexDiagnostics);
    var eof := Match(ts, expression.next, Eof, expression.diagnostics);
    SyntaxTree(expression.node, eof.token, eof.diagnostics)
  }

  /**
    Tokens the expression leaves unread are reported by the closing
    `matchToken(EOF)`, against the first of them; when none are left, that
    match adds nothing.
   */
  lemma LeftoverTokensDiagnosed(ts: seq<Token>, lexDiagnostics: seq<Diagnostic>)
    requires WellFormed(ts)
    ensures var e := Expression(ts, 0, 0, lexDiagnostics);
      var tree := ParseTokens(ts, lexDiagnostics);
      (e.next < |ts| - 1 ==>
        tree.diagnostics == e.diagnostics
          + [UnexpectedToken(ts[e.next].kind, ts[e.next].value, ts[e.next].position, Eof)]) &&
      (e.next == |ts| - 1 ==> tree.diagnostics == e.diagnostics)
  {
  }

  /** A `true`/`false` keyword is a literal of its own token, consuming exactly that token. */
  lemma KeywordLiteral(ts: seq<Token>, pos: nat, ds: seq<Diagnostic>)
    requires WellFormed(ts) && pos < |ts|
    requires ts[pos].kind == TrueKeyword || ts[pos].kind == FalseKeyword
    ensures Primary(ts, pos, ds) == Parsed(Literal(ts[pos]), pos + 1, ds)
  {
  }

  /**
    Parsed above the tightest binary level, as every operand of a prefix
    operator is, an expression has no binary operator at its top: `-2 * 3`
    negates only the 2.
   */
  lemma OperandOfPrefixIsNotBinary(ts: seq<Token>, pos: nat, parent: nat, ds: seq<Diagnostic>)
    requires WellFormed(ts) && pos < |ts|
    requires parent >= 4
    ensures !Expression(ts, pos, parent, ds).node.Binary?
  {
    var unary := UnaryOperatorPrecedence(PeekAt(ts, pos).kind);
    if unary != 0 && unary >= parent {
      var operand := Expression(ts, pos + 1, unary, ds);
      assert BinaryOperatorPrecedence(ts[operand.next].kind) <= 4;
    } else {
      var primary := Primary(ts, pos, ds);
      assert BinaryOperatorPrecedence(ts[primary.next].kind) <= 4;
    }
  }

  /**
    `ts[at..end]` is a run of pairs "operator of precedence `prec`, NUMBER",
    as follows the first number of a chain `n0 op1 n1 op2 n2 ...`.
   */
  predicate IsRun(ts: seq<Token>, at: nat, end: nat, prec: nat)
    decreases end - at
  {
    at <= end < |ts| &&
    (at == end ||
     (at + 2 <= end && BinaryOperatorPrecedence(ts[at].kind) == prec && ts[at + 1].kind == Number &&
      IsRun(ts, at + 2, end, prec)))
  }

  /** The left-leaning tree `((left op1 n1) op2 n2) ...` of a run folded onto `left`. */
  function FoldRun(ts: seq<Token>, at: nat, end: nat, left: ExpressionNode): ExpressionNode
    requires end < |ts|
    decreases end - at
  {
    if at + 2 > end then left
    else FoldRun(ts, at + 2, end, Binary(left, ts[at], Literal(ts[at + 1])))
  }

  /** An expression parsed under `parent` ends before a token that does not bind tighter than `parent`. */
  lemma {:induction false} ExpressionEndsLoose(ts: seq<Token>, pos: nat, parent: nat, ds: seq<Diagnostic>)
    requires WellFormed(ts) && pos < |ts|
    ensures BinaryOperatorPrecedence(ts[Expression(ts, pos, parent, ds).next].kind) <= parent
    decreases |ts| - pos, 2
  {
    var unary := UnaryOperatorPrecedence(PeekAt(ts, pos).kind);
    if unary != 0 && unary >= parent {
      var operand := Expression(ts, pos + 1, unary, ds);
      TailEndsLoose(ts, operand.next, parent, Unary(ts[pos], operand.node), operand.diagnostics);
    } else {
      var primary := Primary(ts, pos, ds);
      TailEndsLoose(ts, primary.next, parent, primary.node, primary.diagnostics);
    }
  }

  /** The operator loop under `parent` ends at a token that does not bind tighter than `parent`. */
  lemma {:induction false} TailEndsLoose(ts: seq<Token>, pos: nat, parent: nat, left: ExpressionNode, ds: seq<Diagnostic>)
    requires WellFormed(ts) && pos < |ts|
    ensures BinaryOperatorPrecedence(ts[BinaryTail(ts, pos, parent, left, ds).next].kind) <= parent
    decreases |ts| - pos, 1
  {
    var precedence := BinaryOperatorPrecedence(PeekAt(ts, pos).kind);
    if precedence == 0 || precedence <= parent {
      assert PeekAt(ts, pos) == ts[pos];
    } else {
      var right := Expression(ts, pos + 1, precedence, ds);
      TailEndsLoose(ts, right.next, parent, Binary(left, ts[pos], right.node), right.diagnostics);
    }
  }

  /** An operator, prefix or binary, is never the last token: the last one is EOF. */
  lemma OperatorNotLast(ts: seq<Token>, pos: nat)
    requires WellFormed(ts) && pos < |ts|
    requires UnaryOperatorPrecedence(ts[pos].kind) != 0 || BinaryOperatorPrecedence(ts[pos].kind) != 0
    ensures pos + 1 < |ts|
  {
  }

  /** A prefix operator that binds at least as tightly as `parent` takes the expression after it as its operand. */
  lemma UnaryAfter(ts: seq<Token>, pos: nat, parent: nat, ds: seq<Diagnostic>, operand: Parsed)
    requires WellFormed(ts) && pos + 1 < |ts|
    requires UnaryOperatorPrecedence(ts[pos].kind) != 0 && UnaryOperatorPrecedence(ts[pos].kind) >= parent
    requires operand == Expression(ts, pos + 1, UnaryOperatorPrecedence(ts[pos].kind), ds)
    ensures operand.next < |ts|
    ensures BinaryTail(ts, operand.next, parent, Unary(ts[pos], operand.node), operand.diagnostics)
      == Expression(ts, pos, parent, ds)
  {
    assert PeekAt(ts, pos) == ts[pos];
  }

  /** Without such a prefix operator, an expression is a primary followed by the binary operators after it. */
  lemma PrimaryThenTail(ts: seq<Token>, pos: nat, parent: nat, ds: seq<Diagnostic>, primary: Parsed)
    requires WellFormed(ts) && pos < |ts|
    requires UnaryOperatorPrecedence(ts[pos].kind) == 0 || UnaryOperatorPrecedence(ts[pos].kind) < parent
    requires primary == Primary(ts, pos, ds)
    ensures primary.next < |ts|
    ensures BinaryTail(ts, primary.next, parent, primary.node, primary.diagnostics) == Expression(ts, pos, parent, ds)
  {
    assert PeekAt(ts, pos) == ts[pos];
  }

  /** One round of the binary-operator loop: the operator at `pos` and its right operand folded onto `left`. */
  lemma RoundAfter(ts: seq<Token>, pos: nat, parent: nat, left: ExpressionNode, ds: seq<Diagnostic>, right: Parsed)
    requires WellFormed(ts) && pos + 1 < |ts|
    requires parent < BinaryOperatorPrecedence(ts[pos].kind)
    requires right == Expression(ts, pos + 1, BinaryOperatorPrecedence(ts[pos].kind), ds)
    ensures right.next < |ts|
    ensures BinaryTail(ts, right.next, parent, Binary(left, ts[pos], right.node), right.diagnostics)
      == BinaryTail(ts, pos, parent, left, ds)
  {
    assert PeekAt(ts, pos) == ts[pos];
  }

  /** An expression starting at a NUMBER is that literal followed by the binary operators after it. */
  lemma NumberStartsTail(ts: seq<Token>, pos: nat, parent: nat, ds: seq<Diagnostic>)
    requires WellFormed(ts) && pos + 1 < |ts| && ts[pos].kind == Number
    ensures Expression(ts, pos, parent, ds) == BinaryTail(ts, pos + 1, parent, Literal(ts[pos]), ds)
  {
    assert Primary(ts, pos, ds) == Parsed(Literal(ts[pos]), pos + 1, ds) by {
      assert PeekAt(ts, pos) == ts[pos];
    }
    assert UnaryOperatorPrecedence(PeekAt(ts, pos).kind) == 0;
  }

  /** A NUMBER followed by an operator that does not outrank `parent` parses as that literal alone. */
  lemma NumberOperand(ts: seq<Token>, pos: nat, parent: nat, ds: seq<Diagnostic>)
    requires WellFormed(ts) && pos + 1 < |ts| && ts[pos].kind == Number
    requires BinaryOperatorPrecedence(ts[pos + 1].kind) <= parent
    ensures Expression(ts, pos, parent, ds) == Parsed(Literal(ts[pos]), pos + 1, ds)
  {
    NumberStartsTail(ts, pos, parent, ds);
    assert PeekAt(ts, pos + 1) == ts[pos + 1];
  }

  /** A token that does not outrank `parent` ends the loop with `left` as it is. */
  lemma TailStops(ts: seq<Token>, at: nat, parent: nat, left: ExpressionNode, ds: seq<Diagnostic>)
    requires WellFormed(ts) && at < |ts|
    requires BinaryOperatorPrecedence(ts[at].kind) <= parent
    ensures BinaryTail(ts, at, parent, left, ds) == Parsed(left, at, ds)
  {
    assert PeekAt(ts, at) == ts[at];
  }

  /** An operator above `parent` followed by a NUMBER and a token not above it takes that literal as its right operand. */
  lemma TailStep(ts: seq<Token>, at: nat, parent: nat, left: ExpressionNode, ds: seq<Diagnostic>)
    requires WellFormed(ts) && at + 2 < |ts|
    requires parent < BinaryOperatorPrecedence(ts[at].kind)
    requires ts[at + 1].kind == Number
    requires BinaryOperatorPrecedence(ts[at + 2].kind) <= BinaryOperatorPrecedence(ts[at].kind)
    ensures BinaryTail(ts, at, parent, left, ds)
      == BinaryTail(ts, at + 2, parent, Binary(left, ts[at], Literal(ts[at + 1])), ds)
  {
    var precedence := BinaryOperatorPrecedence(ts[at].kind);
    assert PeekAt(ts, at) == ts[at];
    NumberOperand(ts, at + 1, precedence, ds);
    var right := Expression(ts, at + 1, precedence, ds);
    assert BinaryTail(ts, at, parent, left, ds)
      == BinaryTail(ts, right.next, parent, Binary(left, ts[at], right.node), right.diagnostics);
  }

  /** The loop of `parseExpression` over a run of one precedence above `parent` folds it onto `left`. */
  lemma {:induction false} RunFolds(ts: seq<Token>, at: nat, end: nat, prec: nat, parent: nat,
                                    left: ExpressionNode, ds: seq<Diagnostic>)
    requires WellFormed(ts) && IsRun(ts, at, end, prec) && parent < prec
    requires BinaryOperatorPrecedence(ts[end].kind) <= parent
    ensures BinaryTail(ts, at, parent, left, ds) == Parsed(FoldRun(ts, at, end, left), end, ds)
    decreases end - at
  {
    if at == end {
      TailStops(ts, at, parent, left, ds);
    } else {
      assert BinaryOperatorPrecedence(ts[at + 2].kind) <= prec;
      TailStep(ts, at, parent, left, ds);
      RunFolds(ts, at + 2, end, prec, parent, Binary(left, ts[at], Literal(ts[at + 1])), ds);
    }
  }

  /**
    Operators of one precedence fold to the left: `1 - 2 - 3` is
    `(1 - 2) - 3`, for chains of any length and at every level.
   */
  lemma ChainFoldsLeft(ts: seq<Token>, pos: nat, end: nat, prec: nat, parent: nat, ds: seq<Diagnostic>)
    requires WellFormed(ts) && pos < |ts| && ts[pos].kind == Number
    requires IsRun(ts, pos + 1, end, prec) && parent < prec
    requires BinaryOperatorPrecedence(ts[end].kind) <= parent
    ensures Expression(ts, pos, parent, ds) == Parsed(FoldRun(ts, pos + 1, end, Literal(ts[pos])), end, ds)
  {
    var tail := BinaryTail(ts, pos + 1, parent, Literal(ts[pos]), ds);
    assert Expression(ts, pos, parent, ds) == tail by {
      NumberStartsTail(ts, pos, parent, ds);
    }
    assert tail == Parsed(FoldRun(ts, pos + 1, end, Literal(ts[pos])), end, ds) by {
      RunFolds(ts, pos + 1, end, prec, parent, Literal(ts[pos]), ds);
    }
  }

  /**
    `a op1 b op2 c`: the second operator nests under the first exactly when it
    has the higher precedence, so `2 + 3 * 4` is `2 + (3 * 4)` and `2 * 3 + 4`
    is `(2 * 3) + 4`.
   */
  lemma TwoOperators(a: Token, op1: Token, b: Token, op2: Token, c: Token, eof: Token, ds: seq<Diagnostic>)
    requires a.kind == Number && b.kind == Number && c.kind == Number && eof.kind == Eof
    requires BinaryOperatorPrecedence(op1.kind) != 0 && BinaryOperatorPrecedence(op2.kind) != 0
    ensures var ts := [a, op1, b, op2, c, eof];
      WellFormed(ts) &&
      Expression(ts, 0, 0, ds).next == 5 &&
      Expression(ts, 0, 0, ds).node ==
        if BinaryOperatorPrecedence(op1.kind) < BinaryOperatorPrecedence(op2.kind) then
          Binary(Literal(a), op1, Binary(Literal(b), op2, Literal(c)))
        else
          Binary(Binary(Literal(a), op1, Literal(b)), op2, Literal(c))
  {
    var ts := [a, op1, b, op2, c, eof];
    var p1 := BinaryOperatorPrecedence(op1.kind);
    var p2 := BinaryOperatorPrecedence(op2.kind);
    assert Primary(ts, 0, ds) == Parsed(Literal(a), 1, ds);
    NumberOperand(ts, 4, p2, ds);
    if p1 < p2 {
      assert Primary(ts, 2, ds) == Parsed(Literal(b), 3, ds);
      assert BinaryTail(ts, 3, p1, Literal(b), ds) == Parsed(Binary(Literal(b), op2, Literal(c)), 5, ds);
      assert Expression(ts, 2, p1, ds) == Parsed(Binary(Literal(b), op2, Literal(c)), 5, ds);
    } else {
      NumberOperand(ts, 2, p1, ds);
      assert BinaryTail(ts, 3, 0, Binary(Literal(a), op1, Literal(b)), ds)
        == Parsed(Binary(Binary(Literal(a), op1, Literal(b)), op2, Literal(c)), 5, ds);
    }
  }

  /**
    Without a failed match, the leaves of the expression parsed from `pos`
    are exactly the tokens it consumed.
   */
  lemma {:induction false} ExpressionLeaves(ts: seq<Token>, pos: nat, parent: nat, ds: seq<Diagnostic>)
    requires WellFormed(ts) && pos < |ts|
    ensures var r := Expression(ts, pos, parent, ds);
      r.diagnostics == ds ==> Leaves(r.node) == ts[pos..r.next]
    decreases |ts| - pos, 3
  {
    var unary := UnaryOperatorPrecedence(PeekAt(ts, pos).kind);
    if unary != 0 && unary >= parent {
      UnaryLeaves(ts, pos, parent, ds);
    } else {
      PrimaryTailLeaves(ts, pos, parent, ds);
    }
  }

  lemma {:induction false} UnaryLeaves(ts: seq<Token>, pos: nat, parent: nat, ds: seq<Diagnostic>)
    requires WellFormed(ts) && pos < |ts|
    requires var unary := UnaryOperatorPrecedence(ts[pos].kind); unary != 0 && unary >= parent
    ensures var r := Expression(ts, pos, parent, ds);
      r.diagnostics == ds ==> Leaves(r.node) == ts[pos..r.next]
    decreases |ts| - pos, 2
  {
    var r := Expression(ts, pos, parent, ds);
    var unary := UnaryOperatorPrecedence(ts[pos].kind);
    var operand := Expression(ts, pos + 1, unary, ds);
    var node := Unary(ts[pos], operand.node);
    assert r == BinaryTail(ts, operand.next, parent, node, operand.diagnostics);
    if r.diagnostics == ds {
      Unchanged(ds, operand.diagnostics, r.diagnostics);
      ExpressionLeaves(ts, pos + 1, unary, ds);
      TailLeaves(ts, operand.next, parent, node, ds);
      SliceSplit(ts, pos, pos + 1, operand.next);
      SliceSplit(ts, pos, operand.next, r.next);
      assert ts[pos..pos + 1] == [ts[pos]];
    }
  }

  lemma {:induction false} PrimaryTailLeaves(ts: seq<Token>, pos: nat, parent: nat, ds: seq<Diagnostic>)
    requires WellFormed(ts) && pos < |ts|
    requires var unary := UnaryOperatorPrecedence(ts[pos].kind); !(unary != 0 && unary >= parent)
    ensures var r := Expression(ts, pos, parent, ds);
      r.diagnostics == ds ==> Leaves(r.node) == ts[pos..r.next]
    decreases |ts| - pos, 2
  {
    var r := Expression(ts, pos, parent, ds);
    var primary := Primary(ts, pos, ds);
    assert r == BinaryTail(ts, primary.next, parent, primary.node, primary.diagnostics);
    if r.diagnostics == ds {
      Unchanged(ds, primary.diagnostics, r.diagnostics);
      PrimaryLeaves(ts, pos, ds);
      TailLeaves(ts, primary.next, parent, primary.node, ds);
      SliceSplit(ts, pos, primary.next, r.next);
    }
  }

  lemma {:induction false} TailLeaves(ts: seq<Token>, pos: nat, parent: nat, left: ExpressionNode, ds: seq<Diagnostic>)
    requires WellFormed(ts) && pos < |ts|
    ensures var r := BinaryTail(ts, pos, parent, left, ds);
      r.diagnostics == ds ==> Leaves(r.node) == Leaves(left) + ts[pos..r.next]
    decreases |ts| - pos, 1
  {
    var r := BinaryTail(ts, pos, parent, left, ds);
    assert PeekAt(ts, pos) == ts[pos];
    var precedence := BinaryOperatorPrecedence(ts[pos].kind);
    if precedence == 0 || precedence <= parent {
      assert r == Parsed(left, pos, ds);
      assert Leaves(left) + ts[pos..pos] == Leaves(left);
    } else if r.diagnostics == ds {
      OperatorNotLast(ts, pos);
      var right := Expression(ts, pos + 1, precedence, ds);
      var node := Binary(left, ts[pos], right.node);
      assert r == BinaryTail(ts, right.next, parent, node, right.diagnostics) by {
        RoundAfter(ts, pos, parent, left, ds, right);
      }
      assert right.diagnostics == ds by {
        Unchanged(ds, right.diagnostics, r.diagnostics);
      }
      assert Leaves(right.node) == ts[pos + 1..right.next] by {
        ExpressionLeaves(ts, pos + 1, precedence, ds);
      }
      assert Leaves(r.node) == Leaves(left) + [ts[pos]] + Leaves(right.node) + ts[right.next..r.next] by {
        TailLeaves(ts, right.next, parent, node, ds);
      }
      FoldSplice(ts, pos, right.next, r.next, Leaves(left), Leaves(right.node), Leaves(r.node));
    }
  }

  lemma {:induction false} PrimaryLeaves(ts: seq<Token>, pos: nat, ds: seq<Diagnostic>)
    requires WellFormed(ts) && pos < |ts|
    ensures var r := Primary(ts, pos, ds);
      r.diagnostics == ds ==> Leaves(r.node) == ts[pos..r.next]
    decreases |ts| - pos, 1
  {
    var r := Primary(ts, pos, ds);
    if r.diagnostics == ds && ts[pos].kind == OpenParen {
      assert PeekAt(ts, pos) == ts[pos];
      var expression := Expression(ts, pos + 1, 0, ds);
      var close := Match(ts, expression.next, CloseParen, expression.diagnostics);
      assert r == Parsed(Parenthesized(ts[pos], expression.node, close.token), close.next, close.diagnostics);
      assert expression.diagnostics == ds by {
        Unchanged(ds, expression.diagnostics, r.diagnostics);
      }
      assert close.token == ts[expression.next] && close.next == expression.next + 1;
      assert Leaves(expression.node) == ts[pos + 1..expression.next] by {
        ExpressionLeaves(ts, pos + 1, 0, ds);
      }
      assert Leaves(r.node) == [ts[pos]] + Leaves(expression.node) + [ts[expression.next]];
      ParenSplice(ts, pos, expression.next, Leaves(expression.node), Leaves(r.node));
    } else if r.diagnostics == ds {
      assert ts[pos..r.next] == [ts[pos]];
    }
  }

  /**
    When `parse` adds no diagnostic, reading the tree's leaves left to right
    through `getChildren` gives back every token of the list but the EOF.
   */
  lemma TreeLeavesAreTokens(ts: seq<Token>, lexDiagnostics: seq<Diagnostic>)
    requires WellFormed(ts)
    ensures var tree := ParseTokens(ts, lexDiagnostics);
      tree.diagnostics == lexDiagnostics ==> Leaves(tree.root) == ts[..|ts| - 1]
  {
    var e := Expression(ts, 0, 0, lexDiagnostics);
    var tree := ParseTokens(ts, lexDiagnostics);
    if tree.diagnostics == lexDiagnostics {
      Unchanged(lexDiagnostics, e.diagnostics, tree.diagnostics);
      ExpressionLeaves(ts, 0, 0, lexDiagnostics);
      assert e.next == |ts| - 1;
    }
  }
}
