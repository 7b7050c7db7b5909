/**
  What the classic `Parser` (`codeAnalysis/Parser.kt`) computes, as functions
  of the token list, the cursor and the diagnostics so far: `parseTerms`
  folds `+`/`-` over factors, `parseFactor` folds `*`/`/` over primaries,
  and a primary is a parenthesised expression or a NUMBER match.
 */
module ClassicGrammar {
  import opened Wrappers
  import opened Slices
  import opened Text
  import opened ClassicTokens
  import opened ClassicRules

  /** A token list as `init` leaves it: non-empty, with its only EOF last. */
  predicate WellFormed(ts: seq<Token>)
  {
    |ts| > 0 && ts[|ts| - 1].kind == Eof && forall i :: 0 <= i < |ts| - 1 ==> ts[i].kind != Eof
  }

  /** `peek(0)` with the cursor at `pos`: past the end it is the last token. */
  function PeekAt(ts: seq<Token>, pos: nat): Token
    requires |ts| > 0
  {
    if pos >= |ts| then ts[|ts| - 1] else ts[pos]
  }

  /** The result of `match`: the token it returns, the new cursor, the diagnostics. */
  datatype Matched = Matched(token: Token, next: nat, diagnostics: seq<Diagnostic>)

  /**
    `match(tokenType)`: the current token, consumed, when it has the expected
    kind; otherwise one diagnostic and a NUL token of the expected kind at the
    current token's position, with the cursor left where it was.
   */
  function Match(ts: seq<Token>, pos: nat, expected: TokenKind, ds: seq<Diagnostic>): (m: Matched)
    requires WellFormed(ts) && pos < |ts|
    ensures m.token.kind == expected && m.token.position == ts[pos].position
    ensures m.next == pos + 1 <==> ts[pos].kind == expected
    ensures m.next == pos <==> ts[pos].kind != expected
    ensures ts[pos].kind == expected ==> m.token == ts[pos] && m.diagnostics == ds
    ensures ts[pos].kind != expected ==>
      m.token.value == None &&
      m.diagnostics == ds + [UnexpectedToken(ts[pos].kind, ts[pos].value, ts[pos].position, expected)]
    ensures expected != Eof ==> m.next < |ts|
  {
    var current := PeekAt(ts, pos);
    if current.kind == expected then
      Matched(current, pos + 1, ds)
    else
      Matched(Token(expected, current.position, [Nul], None), pos,
              ds + [UnexpectedToken(current.kind, current.value, current.position, expected)])
  }

  /** A parsed subtree, the cursor after it and the diagnostics so far. */
  datatype Parsed = Parsed(node: ExpressionNode, next: nat, diagnostics: seq<Diagnostic>)

  /** `parseTerms`: a factor, then the `+`/`-` loop. */
  function Terms(ts: seq<Token>, pos: nat, ds: seq<Diagnostic>): (r: Parsed)
    requires WellFormed(ts) && pos < |ts|
    ensures pos <= r.next < |ts|
    ensures |ds| <= |r.diagnostics| && r.diagnostics[..|ds|] == ds
    ensures !IsTermOperator(ts[r.next].kind) && !IsFactorOperator(ts[r.next].kind)
    decreases |ts| - pos, 3
  {
    var factor := Factor(ts, pos, ds);
    TermsTail(ts, factor.next, factor.node, factor.diagnostics)
  }

  /** The `while` loop of `parseTerms`: folds each `+`/`-` and the factor after it onto `left`. */
  function TermsTail(ts: seq<Token>, pos: nat, left: ExpressionNode, ds: seq<Diagnostic>): (r: Parsed)
    requires WellFormed(ts) && pos < |ts| && !IsFactorOperator(ts[pos].kind)
    ensures pos <= r.next < |ts|
    ensures |ds| <= |r.diagnostics| && r.diagnostics[..|ds|] == ds
    ensures !IsTermOperator(ts[r.next].kind) && !IsFactorOperator(ts[r.next].kind)
    ensures r.next == pos ==> r == Parsed(left, pos, ds)
    decreases |ts| - pos, 2
  {
    if !IsTermOperator(PeekAt(ts, pos).kind) then
      Parsed(left, pos, ds)
    else
      var right := Factor(ts, pos + 1, ds);
      TermsTail(ts, right.next, Binary(left, ts[pos], right.node), right.diagnostics)
  }

  /** `parseFactor`: a primary, then the `*`/`/` loop. */
  function Factor(ts: seq<Token>, pos: nat, ds: seq<Diagnostic>): (r: Parsed)
    requires WellFormed(ts) && pos < |ts|
    ensures pos <= r.next < |ts|
    ensures |ds| <= |r.diagnostics| && r.diagnostics[..|ds|] == ds
    ensures !IsFactorOperator(ts[r.next].kind)
    decreases |ts| - pos, 2
  {
    var primary := Primary(ts, pos, ds);
    FactorTail(ts, primary.next, primary.node, primary.diagnostics)
  }

  /** The `while` loop of `parseFactor`: folds each `*`/`/` and the primary after it onto `left`. */
  function FactorTail(ts: seq<Token>, pos: nat, left: ExpressionNode, ds: seq<Diagnostic>): (r: Parsed)
    requires WellFormed(ts) && pos < |ts|
    ensures pos <= r.next < |ts|
    ensures |ds| <= |r.diagnostics| && r.diagnostics[..|ds|] == ds
    ensures !IsFactorOperator(ts[r.next].kind)
    ensures r.next == pos ==> r == Parsed(left, pos, ds)
    decreases |ts| - pos, 1
  {
    if !IsFactorOperator(PeekAt(ts, pos).kind) then
      Parsed(left, pos, ds)
    else
      var right := Primary(ts, pos + 1, ds);
      FactorTail(ts, right.next, Binary(left, ts[pos], right.node), right.diagnostics)
  }

  /** `parsePrimaryExpression`: `(`, terms and a required `)`, or a NUMBER match. */
  function Primary(ts: seq<Token>, pos: nat, ds: seq<Diagnostic>): (r: Parsed)
    requires WellFormed(ts) && pos < |ts|
    ensures pos <= r.next < |ts|
    ensures |ds| <= |r.diagnostics| && r.diagnostics[..|ds|] == ds
    ensures r.next == pos ==> |r.diagnostics| > |ds|
    decreases |ts| - pos, 1
  {
    var current := PeekAt(ts, pos);
    if current.kind == OpenParen then
      var expression := Terms(ts, pos + 1, ds);
      var close := Match(ts, expression.next, CloseParen, expression.diagnostics);
      Parsed(Parenthesized(current, expression.node, close.token), close.next, close.diagnostics)
    else
      var number := Match(ts, pos, Number, ds);
      Parsed(Literal(number.token), number.next, number.diagnostics)
  }

  /** One round of the `*`/`/` loop: the operator at `pos` and the primary after it folded onto `left`. */
  lemma FactorRound(ts: seq<Token>, pos: nat, left: ExpressionNode, ds: seq<Diagnostic>, right: Parsed)
    requires WellFormed(ts) && pos < |ts| && IsFactorOperator(ts[pos].kind)
    requires pos + 1 < |ts| && right == Primary(ts, pos + 1, ds)
    ensures right.next < |ts|
    ensures FactorTail(ts, right.next, Binary(left, ts[pos], right.node), right.diagnostics) == FactorTail(ts, pos, left, ds)
  {
    assert PeekAt(ts, pos) == ts[pos];
  }

  /** One round of the `+`/`-` loop: the operator at `pos` and the factor after it folded onto `left`. */
  lemma TermsRound(ts: seq<Token>, pos: nat, left: ExpressionNode, ds: seq<Diagnostic>, right: Parsed)
    requires WellFormed(ts) && pos < |ts| && IsTermOperator(ts[pos].kind)
    requires pos + 1 < |ts| && right == Factor(ts, pos + 1, ds)
    ensures right.next < |ts| && !IsFactorOperator(ts[right.next].kind)
    ensures TermsTail(ts, right.next, Binary(left, ts[pos], right.node), right.diagnostics) == TermsTail(ts, pos, left, ds)
  {
    assert PeekAt(ts, pos) == ts[pos];
  }

  /** A NUMBER is a primary on its own. */
  lemma NumberPrimary(ts: seq<Token>, pos: nat, ds: seq<Diagnostic>)
    requires WellFormed(ts) && pos < |ts| && ts[pos].kind == Number
    ensures Primary(ts, pos, ds) == Parsed(Literal(ts[pos]), pos + 1, ds)
  {
    assert PeekAt(ts, pos) == ts[pos];
  }

  /** The `*`/`/` loop ends at any other token. */
  lemma FactorTailStops(ts: seq<Token>, pos: nat, left: ExpressionNode, ds: seq<Diagnostic>)
    requires WellFormed(ts) && pos < |ts| && !IsFactorOperator(ts[pos].kind)
    ensures FactorTail(ts, pos, left, ds) == Parsed(left, pos, ds)
  {
    assert PeekAt(ts, pos) == ts[pos];
  }

  /** The `+`/`-` loop ends at any token that is neither a term nor a factor operator. */
  lemma TermsTailStops(ts: seq<Token>, pos: nat, left: ExpressionNode, ds: seq<Diagnostic>)
    requires WellFormed(ts) && pos < |ts| && !IsFactorOperator(ts[pos].kind) && !IsTermOperator(ts[pos].kind)
    ensures TermsTail(ts, pos, left, ds) == Parsed(left, pos, ds)
  {
    assert PeekAt(ts, pos) == ts[pos];
  }

  /** An operator is never the last token: the last one is EOF. */
  lemma OperatorNotLast(ts: seq<Token>, pos: nat)
    requires WellFormed(ts) && pos < |ts| && (IsFactorOperator(ts[pos].kind) || IsTermOperator(ts[pos].kind))
    ensures pos + 1 < |ts|
  {
  }

  /** `parse`: the terms, then `match(EOF)`, with every diagnostic gathered so far. */
  function ParseTokens(ts: seq<Token>, lexDiagnostics: seq<Diagnostic>): (tree: SyntaxTree)
    requires WellFormed(ts)
    ensures tree.eofToken.kind == Eof
    ensures |lexDiagnostics| <= |tree.diagnostics| && tree.diagnostics[..|lexDiagnostics|] == lexDiagnostics
  {
    var expression := Terms(ts, 0, lexDiagnostics);
    var eof := Match(ts, expression.next, Eof, expression.diagnostics);
    SyntaxTree(expression.node, eof.token, eof.diagnostics)
  }

  /** The trees of the grammar: a primary is a literal or parenthesised terms. */
  predicate PrimaryShaped(node: ExpressionNode)
    decreases node, 0
  {
    match node
    case Literal(_) => true
    case Parenthesized(_, e, _) => TermShaped(e)
    case Binary(_, _, _) => false
  }

  /** A factor is a primary, or a factor, `*` or `/`, and a primary: `*` and `/` lean left. */
  predicate FactorShaped(node: ExpressionNode)
    decreases node, 1
  {
    PrimaryShaped(node) ||
    (node.Binary? && IsFactorOperator(node.operatorToken.kind) && FactorShaped(node.left) && PrimaryShaped(node.right))
  }

  /** A term is a factor, or a term, `+` or `-`, and a factor. */
  predicate TermShaped(node: ExpressionNode)
    decreases node, 2
  {
    FactorShaped(node) ||
    (node.Binary? && IsTermOperator(node.operatorToken.kind) && TermShaped(node.left) && FactorShaped(node.right))
  }

  /**
    Every tree `parseTerms` builds has that shape: outside parentheses no `+`
    or `-` node sits below a `*` or `/` node, and no operator node is the
    right operand of one of its own level, so both levels fold left.
   */
  lemma {:induction false} TermsShape(ts: seq<Token>, pos: nat, ds: seq<Diagnostic>)
    requires WellFormed(ts) && pos < |ts|
    ensures TermShaped(Terms(ts, pos, ds).node)
    decreases |ts| - pos, 3
  {
    var factor := Factor(ts, pos, ds);
    FactorShape(ts, pos, ds);
    TermsTailShape(ts, factor.next, factor.node, factor.diagnostics);
  }

  lemma {:induction false} TermsTailShape(ts: seq<Token>, pos: nat, left: ExpressionNode, ds: seq<Diagnostic>)
    requires WellFormed(ts) && pos < |ts| && !IsFactorOperator(ts[pos].kind)
    requires TermShaped(left)
    ensures TermShaped(TermsTail(ts, pos, left, ds).node)
    decreases |ts| - pos, 2
  {
    if IsTermOperator(ts[pos].kind) {
      var right := Factor(ts, pos + 1, ds);
      FactorShape(ts, pos + 1, ds);
      TermsTailShape(ts, right.next, Binary(left, ts[pos], right.node), right.diagnostics);
    }
  }

  lemma {:induction false} FactorShape(ts: seq<Token>, pos: nat, ds: seq<Diagnostic>)
    requires WellFormed(ts) && pos < |ts|
    ensures FactorShaped(Factor(ts, pos, ds).node)
    decreases |ts| - pos, 2
  {
    var primary := Primary(ts, pos, ds);
    PrimaryShape(ts, pos, ds);
    FactorTailShape(ts, primary.next, primary.node, primary.diagnostics);
  }

  lemma {:induction false} FactorTailShape(ts: seq<Token>, pos: nat, left: ExpressionNode, ds: seq<Diagnostic>)
    requires WellFormed(ts) && pos < |ts|
    requires FactorShaped(left)
    ensures FactorShaped(FactorTail(ts, pos, left, ds).node)
    decreases |ts| - pos, 1
  {
    if IsFactorOperator(ts[pos].kind) {
      var right := Primary(ts, pos + 1, ds);
      PrimaryShape(ts, pos + 1, ds);
      FactorTailShape(ts, right.next, Binary(left, ts[pos], right.node), right.diagnostics);
    }
  }

  lemma {:induction false} PrimaryShape(ts: seq<Token>, pos: nat, ds: seq<Diagnostic>)
    requires WellFormed(ts) && pos < |ts|
    ensures PrimaryShaped(Primary(ts, pos, ds).node)
    decreases |ts| - pos, 1
  {
    if ts[pos].kind == OpenParen {
      TermsShape(ts, pos + 1, ds);
    }
  }

  /**
    Without a failed match, the leaves of the terms parsed from `pos` are
    exactly the tokens they consumed.
   */
  lemma {:induction false} TermsLeaves(ts: seq<Token>, pos: nat, ds: seq<Diagnostic>)
    requires WellFormed(ts) && pos < |ts|
    ensures var r := Terms(ts, pos, ds);
      r.diagnostics == ds ==> Leaves(r.node) == ts[pos..r.next]
    decreases |ts| - pos, 3
  {
    var r := Terms(ts, pos, ds);
    var factor := Factor(ts, pos, ds);
    if r.diagnostics == ds {
      Unchanged(ds, factor.diagnostics, r.diagnostics);
      FactorLeaves(ts, pos, ds);
      TermsTailLeaves(ts, factor.next, factor.node, ds);
      SliceSplit(ts, pos, factor.next, r.next);
    }
  }

  lemma {:induction false} TermsTailLeaves(ts: seq<Token>, pos: nat, left: ExpressionNode, ds: seq<Diagnostic>)
    requires WellFormed(ts) && pos < |ts| && !IsFactorOperator(ts[pos].kind)
    ensures var r := TermsTail(ts, pos, left, ds);
      r.diagnostics == ds ==> Leaves(r.node) == Leaves(left) + ts[pos..r.next]
    decreases |ts| - pos, 2
  {
    var r := TermsTail(ts, pos, left, ds);
    if !IsTermOperator(ts[pos].kind) {
      assert r == Parsed(left, pos, ds) by {
        TermsTailStops(ts, pos, left, ds);
      }
      assert Leaves(left) + ts[pos..pos] == Leaves(left);
    } else if r.diagnostics == ds {
      OperatorNotLast(ts, pos);
      var right := Factor(ts, pos + 1, ds);
      var node := Binary(left, ts[pos], right.node);
      assert r == TermsTail(ts, right.next, node, right.diagnostics) by {
        TermsRound(ts, pos, left, ds, right);
      }
      assert right.diagnostics == ds by {
        Unchanged(ds, right.diagnostics, r.diagnostics);
      }
      assert Leaves(right.node) == ts[pos + 1..right.next] by {
        FactorLeaves(ts, pos + 1, ds);
      }
      assert Leaves(r.node) == Leaves(left) + [ts[pos]] + Leaves(right.node) + ts[right.next..r.next] by {
        TermsTailLeaves(ts, right.next, node, ds);
      }
      FoldSplice(ts, pos, right.next, r.next, Leaves(left), Leaves(right.node), Leaves(r.node));
    }
  }

  lemma {:induction false} FactorLeaves(ts: seq<Token>, pos: nat, ds: seq<Diagnostic>)
    requires WellFormed(ts) && pos < |ts|
    ensures var r := Factor(ts, pos, ds);
      r.diagnostics == ds ==> Leaves(r.node) == ts[pos..r.next]
    decreases |ts| - pos, 2
  {
    var r := Factor(ts, pos, ds);
    var primary := Primary(ts, pos, ds);
    if r.diagnostics == ds {
      Unchanged(ds, primary.diagnostics, r.diagnostics);
      PrimaryLeaves(ts, pos, ds);
      FactorTailLeaves(ts, primary.next, primary.node, ds);
      SliceSplit(ts, pos, primary.next, r.next);
    }
  }

  lemma {:induction false} FactorTailLeaves(ts: seq<Token>, pos: nat, left: ExpressionNode, ds: seq<Diagnostic>)
    requires WellFormed(ts) && pos < |ts|
    ensures var r := FactorTail(ts, pos, left, ds);
      r.diagnostics == ds ==> Leaves(r.node) == Leaves(left) + ts[pos..r.next]
    decreases |ts| - pos, 1
  {
    var r := FactorTail(ts, pos, left, ds);
    if !IsFactorOperator(ts[pos].kind) {
      assert r == Parsed(left, pos, ds) by {
        FactorTailStops(ts, pos, left, ds);
      }
      assert Leaves(left) + ts[pos..pos] == Leaves(left);
    } else if r.diagnostics == ds {
      OperatorNotLast(ts, pos);
      var right := Primary(ts, pos + 1, ds);
      var node := Binary(left, ts[pos], right.node);
      assert r == FactorTail(ts, right.next, node, right.diagnostics) by {
        FactorRound(ts, pos, left, ds, right);
      }
      assert right.diagnostics == ds by {
        Unchanged(ds, right.diagnostics, r.diagnostics);
      }
      assert Leaves(right.node) == ts[pos + 1..right.next] by {
        PrimaryLeaves(ts, pos + 1, ds);
      }
      assert Leaves(r.node) == Leaves(left) + [ts[pos]] + Leaves(right.node) + ts[right.next..r.next] by {
        FactorTailLeaves(ts, right.next, node, ds);
      }
      FoldSplice(ts, pos, right.next, r.next, Leaves(left), Leaves(right.node), Leaves(r.node));
    }
  }

  lemma {:induction false} PrimaryLeaves(ts: seq<Token>, pos: nat, ds: seq<Diagnostic>)
    requires WellFormed(ts) && pos < |ts|
    ensures var r := Primary(ts, pos, ds);
      r.diagnostics == ds ==> Leaves(r.node) == ts[pos..r.next]
    decreases |ts| - pos, 1
  {
    var r := Primary(ts, pos, ds);
    if r.diagnostics == ds && ts[pos].kind == OpenParen {
      var expression := Terms(ts, pos + 1, ds);
      Unchanged(ds, expression.diagnostics, r.diagnostics);
      TermsLeaves(ts, pos + 1, ds);
      SliceSplit(ts, pos, pos + 1, expression.next);
      SliceSplit(ts, pos, expression.next, r.next);
      assert ts[pos..pos + 1] == [ts[pos]];
      assert ts[expression.next..r.next] == [ts[expression.next]];
    } else if r.diagnostics == ds {
      assert ts[pos..r.next] == [ts[pos]];
    }
  }

  /**
    When `parse` adds no diagnostic, reading the tree's leaves left to right
    through `getChildren` gives back every token of the list but the EOF.
   */
  lemma TreeLeavesAreTokens(ts: seq<Token>, lexDiagnostics: seq<Diagnostic>)
    requires WellFormed(ts)
    ensures var tree := ParseTokens(ts, lexDiagnostics);
      tree.diagnostics == lexDiagnostics ==> Leaves(tree.root) == ts[..|ts| - 1]
  {
    var e := Terms(ts, 0, lexDiagnostics);
    var tree := ParseTokens(ts, lexDiagnostics);
    if tree.diagnostics == lexDiagnostics {
      Unchanged(lexDiagnostics, e.diagnostics, tree.diagnostics);
      TermsLeaves(ts, 0, lexDiagnostics);
      assert e.next == |ts| - 1;
    }
  }

  /** `8 / 4 / 2`: operators of one level fold left. */
  lemma DivisionFoldsLeft(a: Token, op1: Token, b: Token, op2: Token, c: Token, eof: Token, ds: seq<Diagnostic>)
    requires a.kind == Number && b.kind == Number && c.kind == Number && eof.kind == Eof
    requires op1.kind == Slash && op2.kind == Slash
    ensures var ts := [a, op1, b, op2, c, eof];
      WellFormed(ts) &&
      ParseTokens(ts, ds) == SyntaxTree(Binary(Binary(Literal(a), op1, Literal(b)), op2, Literal(c)), eof, ds)
  {
    var ts := [a, op1, b, op2, c, eof];
    assert WellFormed(ts);
    var ab := Binary(Literal(a), op1, Literal(b));
    var node := Binary(ab, op2, Literal(c));
    assert FactorTail(ts, 3, ab, ds) == Parsed(node, 5, ds) by {
      NumberPrimary(ts, 4, ds);
      FactorRound(ts, 3, ab, ds, Primary(ts, 4, ds));
      FactorTailStops(ts, 5, node, ds);
    }
    assert Factor(ts, 0, ds) == Parsed(node, 5, ds) by {
      NumberPrimary(ts, 0, ds);
      NumberPrimary(ts, 2, ds);
      FactorRound(ts, 1, Literal(a), ds, Primary(ts, 2, ds));
    }
    assert Terms(ts, 0, ds) == Parsed(node, 5, ds) by {
      TermsTailStops(ts, 5, node, ds);
    }
  }

  /** `2 + 3 * 4`: the factor level nests below the terms level. */
  lemma ProductNestsInSum(a: Token, plus: Token, b: Token, times: Token, c: Token, eof: Token, ds: seq<Diagnostic>)
    requires a.kind == Number && b.kind == Number && c.kind == Number && eof.kind == Eof
    requires plus.kind == Plus && times.kind == Times
    ensures var ts := [a, plus, b, times, c, eof];
      WellFormed(ts) &&
      ParseTokens(ts, ds) == SyntaxTree(Binary(Literal(a), plus, Binary(Literal(b), times, Literal(c))), eof, ds)
  {
    var ts := [a, plus, b, times, c, eof];
    assert WellFormed(ts);
    var bc := Binary(Literal(b), times, Literal(c));
    var tree := Binary(Literal(a), plus, bc);
    assert Factor(ts, 0, ds) == Parsed(Literal(a), 1, ds) by {
      NumberPrimary(ts, 0, ds);
      FactorTailStops(ts, 1, Literal(a), ds);
    }
    assert Factor(ts, 2, ds) == Parsed(bc, 5, ds) by {
      NumberPrimary(ts, 2, ds);
      NumberPrimary(ts, 4, ds);
      FactorRound(ts, 3, Literal(b), ds, Primary(ts, 4, ds));
      FactorTailStops(ts, 5, bc, ds);
    }
    assert Terms(ts, 0, ds) == Parsed(tree, 5, ds) by {
      TermsRound(ts, 1, Literal(a), ds, Factor(ts, 2, ds));
      TermsTailStops(ts, 5, tree, ds);
    }
  }

  /**
    `-1`: there are no prefix operators, so the first primary is a failed
    NUMBER match, a synthetic token at the `-`, and the `-` then becomes a
    binary operator; the one diagnostic names the `-`.
   */
  lemma NoPrefixMinus(minus: Token, one: Token, eof: Token, ds: seq<Diagnostic>)
    requires minus.kind == Minus && one.kind == Number && eof.kind == Eof
    ensures var ts := [minus, one, eof];
      var synthetic := Token(Number, minus.position, [Nul], None);
      WellFormed(ts) &&
      ParseTokens(ts, ds) == SyntaxTree(
        Binary(Literal(synthetic), minus, Literal(one)), eof,
        ds + [UnexpectedToken(Minus, minus.value, minus.position, Number)])
  {
    var ts := [minus, one, eof];
    var synthetic := Token(Number, minus.position, [Nul], None);
    var d1 := ds + [UnexpectedToken(Minus, minus.value, minus.position, Number)];
    var tree := Binary(Literal(synthetic), minus, Literal(one));
    assert WellFormed(ts);
    assert Factor(ts, 0, ds) == Parsed(Literal(synthetic), 0, d1) by {
      assert Primary(ts, 0, ds) == Parsed(Literal(synthetic), 0, d1) by {
        assert PeekAt(ts, 0) == ts[0];
      }
      FactorTailStops(ts, 0, Literal(synthetic), d1);
    }
    assert Factor(ts, 1, d1) == Parsed(Literal(one), 2, d1) by {
      NumberPrimary(ts, 1, d1);
      FactorTailStops(ts, 2, Literal(one), d1);
    }
    assert Terms(ts, 0, ds) == Parsed(tree, 2, d1) by {
      TermsRound(ts, 0, Literal(synthetic), d1, Factor(ts, 1, d1));
      TermsTailStops(ts, 2, tree, d1);
    }
  }

  /**
    Tokens the terms leave unread are reported by the closing `match(EOF)`,
    against the first of them; when none are left, that match adds nothing.
   */
  lemma LeftoverTokensDiagnosed(ts: seq<Token>, lexDiagnostics: seq<Diagnostic>)
    requires WellFormed(ts)
    ensures var e := Terms(ts, 0, lexDiagnostics);
      var tree := ParseTokens(ts, lexDiagnostics);
      (e.next < |ts| - 1 ==>
        tree.diagnostics == e.diagnostics
          + [UnexpectedToken(ts[e.next].kind, ts[e.next].value, ts[e.next].position, Eof)]) &&
      (e.next == |ts| - 1 ==> tree.diagnostics == e.diagnostics)
  {
  }
}
